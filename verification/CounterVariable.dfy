/** A loop that counts in a variable: promotion is right or wrong with the order in which the walk takes the blocks. */
module CounterVariable {
  import opened Words
  import opened Graph
  import opened Dominance
  import opened Ir
  import opened Ssa
  import opened Rewrite
  import opened FunctionObject
  import opened PushedValues
  import opened PromotedVariables
  import opened TreeWalk
  import A = AllocPromoter
  import L = CountingLoop
  import DC = DominanceComputer
  import DT = DominatorTree
  import F = Frontiers

  // ---- The function

  function EntryBlock(): Block {
    [AllocInst(0), StoreInst(1, Alloc(0), Const(0)), BranchInst(2, 1)]
  }

  function Header(limit: Word): Block {
    [LoadInst(3, Alloc(0)), CompareInst(4, Slt, Def(3), Const(limit)), CondBranchInst(5, Def(4), 3, 2)]
  }

  function Body(): Block {
    [LoadInst(6, Alloc(0)), BinaryInst(7, Add, Def(6), Const(1)), StoreInst(8, Alloc(0), Def(7)), BranchInst(9, 1)]
  }

  function Exit(): Block {
    [LoadInst(10, Alloc(0)), RetInst(11, Def(10))]
  }

  // Counts from 0 to the limit and returns the count.
  function Counter(limit: Word): Function {
    Function([0, 1, 2, 3], map[0 := EntryBlock(), 1 := Header(limit), 2 := Body(), 3 := Exit()])
  }

  function ResultsAt(): Places {
    map[3 := Pos(1, 0), 4 := Pos(1, 1), 6 := Pos(2, 0), 7 := Pos(2, 1), 10 := Pos(3, 0)]
  }

  // The walk takes the exit before the body, or behind it.
  function CounterSetup(limit: Word, order: seq<BlockId>): Setup {
    Setup(Counter(limit), ResultsAt(), {0}, 12, map[0 := 3, 1 := 2, 2 := 1, 3 := 0],
      map[0 := 0, 1 := 0, 2 := 1, 3 := 1], order)
  }

  function ExitFirst(limit: Word): Setup {
    CounterSetup(limit, [0, 1, 3, 2])
  }

  function ExitLast(limit: Word): Setup {
    CounterSetup(limit, [0, 1, 2, 3])
  }

  // ---- Its control flow is that of the loop with a phi

  lemma {:induction false} TargetsAre(b: Block)
    requires b != [] && forall k :: 0 <= k < |b| - 1 ==> InstTargets(b[k]) == []
    ensures BlockTargets(b) == InstTargets(b[|b| - 1])
  {
    if |b| > 1 {
      TargetsAre(b[1..]);
    }
  }

  lemma {:induction false} EdgesAlike(f: Function, g: Function, order: seq<BlockId>)
    requires forall b :: b in order ==> b in f.blocks && b in g.blocks
    requires forall b :: b in order ==> BlockTargets(f.blocks[b]) == BlockTargets(g.blocks[b])
    ensures EdgesOf(f, order) == EdgesOf(g, order)
  {
    hide BlockTargets;
    if order != [] {
      EdgesAlike(f, g, order[1..]);
    }
  }

  lemma SameTargets(limit: Word, b: BlockId)
    requires b < 4
    ensures BlockTargets(Counter(limit).blocks[b]) == BlockTargets(L.Loop(limit).blocks[b])
  {
    hide BlockTargets;
    TargetsAre(Counter(limit).blocks[b]);
    TargetsAre(L.Loop(limit).blocks[b]);
  }

  lemma CounterBlocks(limit: Word)
    ensures var f := Counter(limit); f.order == [0, 1, 2, 3] && forall b: BlockId :: b in f.blocks <==> b < 4
  {
  }

  lemma CounterGraph(limit: Word)
    ensures ValidFunction(Counter(limit)) && ValidFunction(L.Loop(limit))
    ensures CfgOf(Counter(limit)) == CfgOf(L.Loop(limit)) && CfgOf(Counter(limit)).entry == Entry(Counter(limit)) == 0
  {
    hide BlockTargets, Counter, L.Loop;
    var f, g := Counter(limit), L.Loop(limit);
    CounterBlocks(limit);
    L.LoopBlocks(limit);
    L.LoopValid(limit);
    forall b: BlockId | b < 4
      ensures BlockTargets(f.blocks[b]) == BlockTargets(g.blocks[b])
    {
      SameTargets(limit, b);
    }
    EdgesAlike(f, g, [0, 1, 2, 3]);
  }

  // Its edges and its dominators.
  lemma CounterFlow(limit: Word)
    ensures ValidFunction(Counter(limit))
    ensures var g := CfgOf(Counter(limit));
      && (forall b, d :: HasEdge(g, b, d) <==> L.Goes(b, d)) && (forall b :: Reachable(g, b) <==> b < 4)
      && forall i, j :: 0 <= i < 4 && 0 <= j < 4 ==> (Dom(g, i, j) <==> i == 0 || i == j || (i == 1 && j > 1))
    ensures forall b: BlockId :: CanRun(Counter(limit), b) <==> b < 4
  {
    hide Counter, L.Loop, CfgOf, HasEdge, Reachable, Dom, ValidFunction;
    CounterGraph(limit);
    L.LoopEdges(limit);
    L.LoopCanRun(limit);
    L.LoopDominators(limit);
    CounterBlocks(limit);
    L.LoopBlocks(limit);
    forall b: BlockId
      ensures Reachable(CfgOf(Counter(limit)), b) <==> b < 4
    {
      assert CanRun(L.Loop(limit), b) <==> b < 4;
    }
  }

  // ---- What the promoter demands

  lemma CounterLocated(limit: Word)
    ensures Located(Counter(limit), ResultsAt())
  {
  }

  lemma CounterOperands(limit: Word, p: Pos)
    requires Within(Counter(limit), p) && ValidFunction(Counter(limit))
    ensures OperandsAvail(Counter(limit), ResultsAt(), p) && IncomingAvail(Counter(limit), ResultsAt(), p)
    ensures IsTerminator(InstAt(Counter(limit), p)) ==> p.index == |Counter(limit).blocks[p.block]| - 1
    ensures !InstAt(Counter(limit), p).PhiInst?
  {
    hide CfgOf, Dom, ValidFunction;
  }

  lemma CounterWellFormed(limit: Word)
    ensures WellFormed(Counter(limit), ResultsAt())
  {
    hide Counter, Located, OperandsAvail, IncomingAvail, BlockTargets, ValidFunction;
    var f, at := Counter(limit), ResultsAt();
    CounterGraph(limit);
    CounterBlocks(limit);
    CounterLocated(limit);
    forall p | Within(f, p)
      ensures OperandsAvail(f, at, p) && IncomingAvail(f, at, p) && !InstAt(f, p).PhiInst?
      ensures IsTerminator(InstAt(f, p)) ==> p.index == |f.blocks[p.block]| - 1
    {
      CounterOperands(limit, p);
    }
    forall k | 0 <= k < |f.blocks[0]|
      ensures !f.blocks[0][k].PhiInst?
    {
      CounterOperands(limit, Pos(0, k));
    }
  }

  lemma CounterInsts(limit: Word)
    ensures var f := Counter(limit);
      Within(f, Pos(0, 0)) && InstAt(f, Pos(0, 0)) == AllocInst(0)
      && Within(f, Pos(0, 1)) && InstAt(f, Pos(0, 1)) == StoreInst(1, Alloc(0), Const(0))
      && Within(f, Pos(2, 2)) && InstAt(f, Pos(2, 2)) == StoreInst(8, Alloc(0), Def(7))
    ensures forall p :: Within(Counter(limit), p) && InstAt(Counter(limit), p).StoreInst? ==>
        p == Pos(0, 1) || p == Pos(2, 2)
    ensures forall p, a :: Within(Counter(limit), p) && InstAt(Counter(limit), p) == AllocInst(a) ==> a == 0
    ensures forall p :: Within(Counter(limit), p) && InstAt(Counter(limit), p).StoreInst? ==>
        InstAt(Counter(limit), p).ptr == Alloc(0) && !InstAt(Counter(limit), p).val.Alloc?
  {
  }

  lemma CounterVars(limit: Word)
    ensures AreVars(Counter(limit), {0}) && NoneStored(Counter(limit), {0})
  {
    hide Counter;
    var f := Counter(limit);
    CounterInsts(limit);
    assert IsUser(f, Alloc(0), Pos(0, 1));
    assert HasAlloc(f, 0);
  }

  lemma CounterPreorder(limit: Word, order: seq<BlockId>)
    requires order == [0, 1, 3, 2] || order == [0, 1, 2, 3]
    ensures ValidFunction(Counter(limit)) && Preorder(CfgOf(Counter(limit)), order)
  {
    hide Counter, CfgOf, HasEdge, Reachable, Dom, ValidFunction;
    CounterFlow(limit);
    CounterGraph(limit);
  }

  /** The promoter takes the function, whichever of the two comes first. */
  lemma CounterIsSetup(limit: Word, order: seq<BlockId>)
    requires order == [0, 1, 3, 2] || order == [0, 1, 2, 3]
    ensures IsSetup(CounterSetup(limit, order)) && AreVars(Counter(limit), {0})
  {
    hide Counter, L.Loop, CfgOf, WellFormed, AreVars, NoneStored, DT.ExactParents, DC.Climbs, Preorder;
    CounterWellFormed(limit);
    CounterPreorder(limit, order);
    CounterGraph(limit);
    L.LoopTree(limit);
    CounterVars(limit);
    L.LoopBlocks(limit);
  }

  // ---- Where the phis and the sites are

  lemma CounterPhis(limit: Word, order: seq<BlockId>, b: BlockId)
    requires b < 4
    ensures PhiAllowed(CounterSetup(limit, order), 0, b) <==> b == 1
  {
    hide Counter, CfgOf, HasEdge, Reachable, Dom, ValidFunction;
    CounterFlow(limit);
    CounterBlocks(limit);
    CounterInsts(limit);
    var u, g := CounterSetup(limit, order), CfgOf(Counter(limit));
    if b == 1 {
      assert VarStoreAt(u, Pos(2, 2)) && F.InFrontierVia(g, 2, 1, 2);
    }
    if PhiAllowed(u, 0, b) {
      var q :| VarStoreAt(u, q) && InstAt(u.f, q).ptr == Alloc(0) && CanRun(u.f, q.block)
        && F.InFrontier(g, q.block, b);
      var p :| F.InFrontierVia(g, q.block, b, p);
    }
  }

  lemma CounterStores(limit: Word)
    ensures LastStore(EntryBlock(), Alloc(0)) == Some(1) && LastStore(Header(limit), Alloc(0)) == None
    ensures LastStore(Body(), Alloc(0)) == Some(2) && LastStore(Exit(), Alloc(0)) == None
  {
    LastStoreIs(EntryBlock(), Alloc(0), 1);
    LastStoreIs(Body(), Alloc(0), 2);
  }

  // In front of the body and of the exit the phi is on top, if the walk takes the exit first.
  lemma SitesExitFirst(limit: Word)
    ensures var u := ExitFirst(limit);
      SiteAfter(u, [0, 1], 0) == Some(PhiSite(1)) && SiteAfter(u, [0, 1, 3], 0) == Some(PhiSite(1))
  {
    hide PhiAllowed, LastStore, SiteAfter;
    var u := ExitFirst(limit);
    CounterStores(limit);
    CounterPhis(limit, u.order, 1);
    CounterPhis(limit, u.order, 3);
    SiteNext(u, [0], 1, 0);
    SiteNext(u, [0, 1], 3, 0);
    assert [0] + [1] == [0, 1] && [0, 1] + [3] == [0, 1, 3];
    assert BlockOf(u.f, 1) == Header(limit) && BlockOf(u.f, 3) == Exit();
  }

  lemma SiteNext(u: Setup, front: seq<BlockId>, b: BlockId, a: nat)
    ensures SiteAfter(u, front + [b], a) == SiteAt(u, front, b, BlockOf(u.f, b), a)
  {
    assert (front + [b])[..|front|] == front;
  }

  /** Then the walk is right for it, though its loads take phis. */
  lemma CounterIsServed(limit: Word)
    ensures Served(ExitFirst(limit))
  {
    hide Counter, PhiAllowed, SiteAfter, Wanted, HasEdge, CfgOf, ValidFunction, Dom, Reachable;
    CounterFlow(limit);
    CounterGraph(limit);
    SitesExitFirst(limit);
    var u := ExitFirst(limit);
    assert u.order[..2] == [0, 1] && u.order[..3] == [0, 1, 3];
    forall i, j, a | 0 <= i < |u.order| && 0 <= j < |u.order| && a in u.vars && IsEdge(u.f, u.order[i], u.order[j])
      && Wanted(u.f, u.order[j], 0, Alloc(a)) && !PhiAllowed(u, a, u.order[j])
      ensures SiteAfter(u, u.order[..i + 1], a) == SiteAfter(u, u.order[..j], a)
    {
      CounterPhis(limit, u.order, 1);
      assert L.Goes(u.order[i], u.order[j]);
    }
  }

  // ---- The other order

  lemma SitesExitLast()
    ensures var u := ExitLast(0);
      SiteAt(u, [0], 1, [], 0) == Some(PhiSite(1)) && SiteAt(u, [0, 1, 2], 3, [], 0) == Some(StoreSite(Pos(2, 2)))
  {
    hide PhiAllowed, LastStore, SiteAfter;
    var u := ExitLast(0);
    CounterStores(0);
    assert LastStore([], Alloc(0)) == None by {
      var m := LastStore([], Alloc(0));
    }
    CounterPhis(0, u.order, 1);
    CounterPhis(0, u.order, 3);
    SiteNext(u, [0, 1], 2, 0);
    assert [0, 1] + [2] == [0, 1, 2];
    assert BlockOf(u.f, 2) == Body();
  }

  // The first load of a block is replaced by what is on top in front of it.
  lemma TakesSite(w: Plan, phiVars: map<nat, nat>, n: nat, front: seq<BlockId>, b: BlockId, i: Inst)
    requires Promotes(ExitLast(0), w, phiVars) && n < 4 && ExitLast(0).order[n] == b && ExitLast(0).order[..n] == front
    requires |BlockOf(Counter(0), b)| > 0 && BlockOf(Counter(0), b)[0] == i && LoadsFrom(i, Alloc(0)) && b < 4
    ensures Lookup(w.subst, i.id)
         == ValueOf(FlowBy(ExitLast(0), w, phiVars), SiteAt(ExitLast(0), front, b, [], 0), 0)
  {
    hide Counter, PhiAllowed, SiteAt, PushedWith, PlanOf, PhisNew, PhiFilled, Promotes, Resolved, ValueOf;
    var u, x := ExitLast(0), FlowBy(ExitLast(0), w, phiVars);
    ItFills(w, phiVars);
    FillsPlaces(u, w, phiVars);
    CounterBlocks(0);
    assert LoadTakes(u, x, n, 0);
    assert BlockOf(u.f, b)[..0] == [];
    PushedAtSite(u, x, front, b, [], 0);
  }

  // The load of the header becomes the phi, that of the exit the sum that the body computes.
  lemma ExitLastTakes(w: Plan, phiVars: map<nat, nat>) returns (z: nat)
    requires Promotes(ExitLast(0), w, phiVars)
    ensures Lookup(w.subst, 3) == Some(Def(z)) && PhiFor(PhisAt(w.phis, 1), phiVars, 0) == Some(z)
    ensures Lookup(w.subst, 10) == Some(Def(7)) && 4 !in w.subst && 7 !in w.subst
  {
    hide Counter, PhiAllowed, SiteAfter, SiteAt, PhiFor, PlanOf, PhisNew, PhiFilled, Promotes, Resolved, LoadTakes,
      VarLoadAt, PhiCount;
    var u := ExitLast(0);
    ItFills(w, phiVars);
    SitesExitLast();
    CounterLoads(0);
    TakesSite(w, phiVars, 1, [0], 1, LoadInst(3, Alloc(0)));
    TakesSite(w, phiVars, 3, [0, 1, 2], 3, LoadInst(10, Alloc(0)));
    CounterInsts(0);
    NoLoads(u, 4);
    NoLoads(u, 7);
    HeaderPhi(w, phiVars);
    z := PhiFor(PhisAt(w.phis, 1), phiVars, 0).value;
  }

  lemma HeaderPhi(w: Plan, phiVars: map<nat, nat>)
    requires Promotes(ExitLast(0), w, phiVars)
    ensures PhiFor(PhisAt(w.phis, 1), phiVars, 0).Some?
  {
    hide Counter, PhiAllowed, PlanOf, PhisNew, Promotes, PhiFor;
    ItFills(w, phiVars);
    FillsPlaces(ExitLast(0), w, phiVars);
    CounterBlocks(0);
    CounterPhis(0, ExitLast(0).order, 1);
  }

  lemma ItFills(w: Plan, phiVars: map<nat, nat>)
    requires Promotes(ExitLast(0), w, phiVars)
    ensures Fills(ExitLast(0), w, phiVars) && PhisNew(ResultsAt(), w)
  {
    hide Fills, PhisNew;
  }

  lemma CounterLoads(limit: Word)
    ensures var f := Counter(limit);
      && BlockOf(f, 1)[0] == LoadInst(3, Alloc(0)) && BlockOf(f, 3)[0] == LoadInst(10, Alloc(0))
      && |BlockOf(f, 1)| == 3 && |BlockOf(f, 3)| == 2 && BlockOf(f, 1)[..0] == [] && BlockOf(f, 3)[..0] == []
  {
  }

  lemma NoLoads(u: Setup, x: nat)
    requires u == ExitLast(0) && (x == 4 || x == 7)
    ensures !VarLoadAt(u, x)
  {
  }

  // The phi has the first value of the counter from the entry.
  lemma PhiStarts(w: Plan, phiVars: map<nat, nat>, z: nat)
    requires Promotes(ExitLast(0), w, phiVars) && PhiFor(PhisAt(w.phis, 1), phiVars, 0) == Some(z)
    ensures FindPhi(PhisAt(w.phis, 1), z).Some? && Lookup(FindPhi(PhisAt(w.phis, 1), z).value, 0) == Some(Const(0))
    ensures z !in ResultsAt()
  {
    hide Counter, PhiAllowed, PhiFor, PlanOf, PhisNew, LoadTakes, Resolved, FindPhi, Pushed, HasEdge, CfgOf, Dom,
      ValidFunction, VarLoadAt, PhiCount, PushedBy;
    var u, phis := ExitLast(0), PhisAt(w.phis, 1);
    CounterFlow(0);
    CounterBlocks(0);
    PhiForIs(phis, phiVars, 0);
    FindPhiSome(phis, z);
    var k :| 0 <= k < |phis| && phis[k] == PhiInst(z, FindPhi(phis, z).value);
    var x := FlowBy(u, w, phiVars);
    assert PhiFilled(u, x, 1, phis[k]);
    assert Lookup(phis[k].incoming, 0) == Supplied(x, u.order, 0, 1, 0);
    EntryPushes(x, u.order);
    NewPhi(w, 1, k);
  }

  lemma EntryPushes(x: Flow, order: seq<BlockId>)
    requires x.f == Counter(0) && order == [0, 1, 2, 3]
    ensures PushedBy(x, order, 0, 0) == Some(Const(0))
  {
    hide Counter, PushedBy, PhiFor, LastStored, EntryBlock;
    PushedByAt(x, order, 0, 0);
    assert order[..1] == [] + [0];
    PushedNext(x, [], 0, 0);
    BlocksAre();
    EntryStores();
  }

  lemma EntryStores()
    ensures LastStored(EntryBlock(), Alloc(0)) == Some(Const(0))
  {
    LastStoredIs(EntryBlock(), Alloc(0), 1);
  }

  lemma BlocksAre()
    ensures var f := Counter(0);
      BlockOf(f, 0) == EntryBlock() && BlockOf(f, 1) == Header(0) && BlockOf(f, 2) == Body() && BlockOf(f, 3) == Exit()
  {
  }

  lemma NewPhi(w: Plan, b: BlockId, k: nat)
    requires PhisNew(ResultsAt(), w) && k < |PhisAt(w.phis, b)|
    ensures PhisAt(w.phis, b)[k].PhiInst? && PhisAt(w.phis, b)[k].id !in ResultsAt()
  {
    assert PhisAt(w.phis, b) == w.phis[b];
  }

  // What the blocks on the way to the exit become.
  lemma BlocksBecome(w: Plan, z: nat)
    requires Lookup(w.subst, 3) == Some(Def(z)) && Lookup(w.subst, 10) == Some(Def(7)) && 4 !in w.subst
    requires w.dropped == {} && w.cells == {Alloc(0)}
    ensures RewriteBlock(w, EntryBlock()) == [AllocInst(0), BranchInst(2, 1)]
    ensures RewriteBlock(w, Header(0)) == [LoadInst(3, Alloc(0)), CompareInst(4, Slt, Def(z), Const(0)),
                                           CondBranchInst(5, Def(4), 3, 2)]
    ensures RewriteBlock(w, Exit()) == [LoadInst(10, Alloc(0)), RetInst(11, Def(7))]
  {
    RewriteThree(w, EntryBlock()[0], EntryBlock()[1], EntryBlock()[2]);
    RewriteThree(w, Header(0)[0], Header(0)[1], Header(0)[2]);
    RewriteTwo(w, Exit()[0], Exit()[1]);
  }

  lemma RewriteTwo(w: Plan, i: Inst, j: Inst)
    ensures RewriteBlock(w, [i, j]) == RewriteInst(w, i) + RewriteInst(w, j)
  {
    assert [i, j][1..] == [j];
    RewriteOne(w, j);
  }

  lemma RewriteOne(w: Plan, i: Inst)
    ensures RewriteBlock(w, [i]) == RewriteInst(w, i)
  {
    assert [i][1..] == [];
  }

  lemma RewriteThree(w: Plan, i: Inst, j: Inst, k: Inst)
    ensures RewriteBlock(w, [i, j, k]) == RewriteInst(w, i) + RewriteInst(w, j) + RewriteInst(w, k)
  {
    assert [i, j, k][1..] == [j, k];
    RewriteTwo(w, j, k);
  }

  // A step of the promoted function from one of its blocks, whose rest is b.
  lemma StepInto(w: Plan, c: BlockId, b: Block, st: State, d: BlockId, st1: State)
    requires c < 4 && d < 4 && RewriteBlock(w, Counter(0).blocks[c]) == b && ExecInsts(b, st) == Jump(d, st1)
    requires forall k :: 0 <= k < |NewPhis(w, c)| ==> NewPhis(w, c)[k].PhiInst?
    ensures d in Rewritten(Counter(0), w).blocks
    ensures StepBlock(Rewritten(Counter(0), w), c, st)
         == Jump(d, st1.(env := EnterEnv(Rewritten(Counter(0), w).blocks[d], c, st1.env)))
  {
    hide RewriteBlock, EnterEnv;
    PhisFall(NewPhis(w, c), b, st);
  }

  // What a phi takes.
  function Taken(incoming: map<BlockId, Value>, c: BlockId, env: Env): Option<Word> {
    var v := Lookup(incoming, c); if v.Some? then Eval(v.value, env) else None
  }

  // What the result of the body and the phi have when a block of the promoted function is entered.
  lemma EnterFinds(w: Plan, c: BlockId, d: BlockId, env: Env, z: nat)
    requires (d == 1 || d == 3) && PhisNew(ResultsAt(), w) && z !in ResultsAt() && w.dropped == {}
    ensures d in Rewritten(Counter(0), w).blocks
    ensures var env' := EnterEnv(Rewritten(Counter(0), w).blocks[d], c, env);
      && Lookup(env', 7) == Lookup(env, 7)
      && (NewIn(w, z, d) ==> Lookup(env', z) == Taken(FindPhi(NewPhis(w, d), z).value, c, env))
  {
    hide RewriteBlock, EnterEnv, FindPhi;
    var own := Counter(0).blocks[d];
    var b := NewPhis(w, d) + RewriteBlock(w, own);
    assert Rewritten(Counter(0), w).blocks[d] == b;
    FindPhiAppend(NewPhis(w, d), RewriteBlock(w, own), 7);
    FindPhiAppend(NewPhis(w, d), RewriteBlock(w, own), z);
    FindPhiRewritten(w, own, 7);
    FindPhiSome(own, 7);
    FindPhiSome(NewPhis(w, d), 7);
    assert FindPhi(own, 7) == None by {
      NoPhisHere(d);
    }
    EnterLookup(b, c, env, 7);
    EnterLookup(b, c, env, z);
  }

  lemma NoPhisHere(d: BlockId)
    requires d == 1 || d == 3
    ensures PhiIds(Counter(0).blocks[d]) == {}
  {
  }

  lemma ExecThree(i: Inst, j: Inst, k: Inst, st: State)
    ensures ExecInsts([i, j, k], st) ==
      var o := ExecInst(i, st);
      if !o.Fell? then o
      else var p := ExecInst(j, o.st); if !p.Fell? then p else ExecInst(k, p.st)
  {
    assert [i, j, k][1..] == [j, k];
    if ExecInst(i, st).Fell? {
      ExecTwo(j, k, ExecInst(i, st).st);
    }
  }

  lemma ExecTwo(i: Inst, j: Inst, st: State)
    ensures ExecInsts([i, j], st) == var o := ExecInst(i, st); if !o.Fell? then o else ExecInst(j, o.st)
  {
    assert [i, j][1..] == [j];
    if ExecInst(i, st).Fell? {
      ExecOne(j, ExecInst(i, st).st);
    }
  }

  lemma ExecOne(i: Inst, st: State)
    ensures ExecInsts([i], st) == ExecInst(i, st)
  {
    assert [i][1..] == [];
  }

  // The header of the promoted function goes to the exit when the counter is not below the limit.
  lemma HeaderLeaves(z: nat, st: State)
    requires Lookup(st.env, z) == Some(0) && Lookup(st.env, 7) == None && z != 3
    ensures var o := ExecInsts([LoadInst(3, Alloc(0)), CompareInst(4, Slt, Def(z), Const(0)),
                                CondBranchInst(5, Def(4), 3, 2)], st);
      o.Jump? && o.dst == 3 && Lookup(o.st.env, 7) == None
  {
    ExecThree(LoadInst(3, Alloc(0)), CompareInst(4, Slt, Def(z), Const(0)), CondBranchInst(5, Def(4), 3, 2), st);
  }

  lemma ExitSticks(st: State)
    requires Lookup(st.env, 7) == None
    ensures ExecInsts([LoadInst(10, Alloc(0)), RetInst(11, Def(7))], st) == Stuck
  {
    ExecTwo(LoadInst(10, Alloc(0)), RetInst(11, Def(7)), st);
  }

  lemma CounterStep(c: BlockId, b: Block, st: State, d: BlockId, st1: State)
    requires (c == 0 && d == 1) || (c == 1 && d == 3)
    requires BlockOf(Counter(0), c) == b && ExecInsts(b, st) == Jump(d, st1)
    ensures StepBlock(Counter(0), c, st) == Jump(d, st1)
  {
    hide EnterEnv, ExecInsts;
    assert Counter(0).blocks[d] == if d == 1 then Header(0) else Exit();
    EnterNothing(Counter(0).blocks[d], c, st1.env);
  }

  lemma HeaderFinds(st: State)
    requires Lookup(st.cells, Alloc(0)) == Some(0)
    ensures ExecInsts(Header(0), st) == Jump(3, st.(env := st.env[3 := 0][4 := 0]))
  {
    hide ExecInsts, EvalBinary, Read64, Write64;
    ExecThree(LoadInst(3, Alloc(0)), CompareInst(4, Slt, Def(3), Const(0)), CondBranchInst(5, Def(4), 3, 2), st);
  }

  lemma EntrySets(st: State)
    ensures ExecInsts(EntryBlock(), st) == Jump(1, st.(cells := st.cells[Alloc(0) := 0]))
  {
    ExecThree(AllocInst(0), StoreInst(1, Alloc(0), Const(0)), BranchInst(2, 1), st);
  }

  lemma ExitFinds(st: State)
    requires Lookup(st.cells, Alloc(0)) == Some(0)
    ensures var o := ExecInsts(Exit(), st); o.Return? && o.word == 0
  {
    ExecTwo(LoadInst(10, Alloc(0)), RetInst(11, Def(10)), st);
  }

  lemma ThreeSteps(f: Function, st: State, b: BlockId, st1: State, d: BlockId, st2: State)
    requires StepBlock(f, 0, st) == Jump(b, st1) && StepBlock(f, b, st1) == Jump(d, st2)
    ensures Run(f, Jump(0, st), 3) == StepBlock(f, d, st2)
  {
    hide StepBlock;
    assert Run(f, Jump(0, st), 3) == Run(f, Jump(b, st1), 2);
    assert Run(f, Jump(b, st1), 2) == Run(f, Jump(d, st2), 1);
    assert Run(f, Jump(d, st2), 1) == Run(f, StepBlock(f, d, st2), 0);
  }

  /** The loop is left at once and returns 0. */
  lemma CounterReturns(st: State)
    ensures RunFunction(Counter(0), st, 3).Return? && RunFunction(Counter(0), st, 3).word == 0
  {
    hide EnterEnv, ExecInsts, EntryBlock, Header, Exit, Body;
    var f, start := Counter(0), st.(env := map[]);
    var st1 := start.(cells := start.cells[Alloc(0) := 0]);
    var st2 := st1.(env := st1.env[3 := 0][4 := 0]);
    EntrySets(start);
    HeaderFinds(st1);
    ExitFinds(st2);
    CounterStep(0, EntryBlock(), start, 1, st1);
    CounterStep(1, Header(0), st1, 3, st2);
    ThreeSteps(f, start, 1, st1, 3, st2);
  }

  lemma EnterNothing(b: Block, c: BlockId, env: Env)
    requires NoPhis(b)
    ensures EnterEnv(b, c, env) == env
  {
    assert PhiIds(b) == {};
    forall id
      ensures FindPhi(b, id) == None
    {
      FindPhiSome(b, id);
    }
  }

  lemma PhisOnly(w: Plan, b: BlockId)
    requires PhisNew(ResultsAt(), w)
    ensures forall k :: 0 <= k < |NewPhis(w, b)| ==> NewPhis(w, b)[k].PhiInst?
  {
  }

  // The promoted function comes to the exit without a sum.
  lemma PromotedSticks(w: Plan, z: nat, st: State)
    requires PhisNew(ResultsAt(), w) && w.dropped == {} && w.cells == {Alloc(0)} && z !in ResultsAt()
    requires Lookup(w.subst, 3) == Some(Def(z)) && Lookup(w.subst, 10) == Some(Def(7)) && 4 !in w.subst
    requires NewIn(w, z, 1) && Lookup(FindPhi(NewPhis(w, 1), z).value, 0) == Some(Const(0))
    ensures RunFunction(Rewritten(Counter(0), w), st, 3) == Stuck
  {
    hide EnterEnv, ExecInsts, EntryBlock, Header, Exit, Body, PhisNew, RewriteBlock, FindPhi, Rewritten, StepBlock;
    var g, start := Rewritten(Counter(0), w), st.(env := map[]);
    BlocksBecome(w, z);
    BlocksAre();
    PhisOnly(w, 0);
    PhisOnly(w, 1);
    ExecTwo(AllocInst(0), BranchInst(2, 1), start);
    StepInto(w, 0, [AllocInst(0), BranchInst(2, 1)], start, 1, start);
    EnterFinds(w, 0, 1, start.env, z);
    var st1 := start.(env := EnterEnv(g.blocks[1], 0, start.env));
    HeaderLeaves(z, st1);
    var header := [LoadInst(3, Alloc(0)), CompareInst(4, Slt, Def(z), Const(0)), CondBranchInst(5, Def(4), 3, 2)];
    var o := ExecInsts(header, st1);
    StepInto(w, 1, header, st1, 3, o.st);
    EnterFinds(w, 1, 3, o.st.env, z);
    var st2 := o.st.(env := EnterEnv(g.blocks[3], 1, o.st.env));
    ExitStops(w, st2);
    ThreeSteps(g, start, 1, st1, 3, st2);
    EntryIsZero(w);
  }

  lemma EntryIsZero(w: Plan)
    ensures Entry(Rewritten(Counter(0), w)) == 0 && |Rewritten(Counter(0), w).order| > 0
  {
  }

  lemma ExitStops(w: Plan, st: State)
    requires PhisNew(ResultsAt(), w) && Lookup(st.env, 7) == None
    requires RewriteBlock(w, Exit()) == [LoadInst(10, Alloc(0)), RetInst(11, Def(7))]
    ensures StepBlock(Rewritten(Counter(0), w), 3, st) == Stuck
  {
    hide EnterEnv, ExecInsts, PhisNew, RewriteBlock;
    PhisOnly(w, 3);
    ExitSticks(st);
    PhisFall(NewPhis(w, 3), RewriteBlock(w, Exit()), st);
    assert Counter(0).blocks[3] == Exit();
  }

  /** If the walk takes the body before the exit, the exit is given the sum that the body computes: the function that
      returns 0 at once no longer returns. */
  lemma ExitLastIsWrong(plan: Plan, now: Function, st: State)
    requires A.Promoted(ExitLast(0), plan, now)
    ensures IsSetup(ExitLast(0)) && AreVars(Counter(0), {0})
    ensures RunFunction(Counter(0), st, 3).Return? && RunFunction(Counter(0), st, 3).word == 0
    ensures RunFunction(now, st, 3) == Stuck
  {
    hide Counter, Promotes, IsSetup, AreVars, FindPhi, Rewritten, PhiFor, PhisNew;
    CounterIsSetup(0, [0, 1, 2, 3]);
    CounterReturns(st);
    var phiVars: map<nat, nat> :| Promotes(ExitLast(0), plan, phiVars);
    ItFills(plan, phiVars);
    ItPlans(plan, phiVars);
    var z := ExitLastTakes(plan, phiVars);
    PhiStarts(plan, phiVars, z);
    PromotedSticks(plan, z, st);
  }

  lemma ItPlans(w: Plan, phiVars: map<nat, nat>)
    requires Promotes(ExitLast(0), w, phiVars)
    ensures w.dropped == {} && w.cells == {Alloc(0)}
  {
    hide Fills, PhisNew;
    CellsAre(ExitLast(0), w, phiVars);
  }
}

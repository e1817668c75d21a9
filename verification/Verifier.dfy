/** The check that every instruction dominates its uses, and what it means for runs. */
module Verifier {
  import opened Words
  import opened Graph
  import opened Dominance
  import opened DominanceComputer
  import opened DominatorTree
  import opened Ir
  import opened Ssa
  import opened FunctionObject
  import opened ControlFlow

  // The value that other instructions use an instruction by.
  function ValueOf(i: Inst): Option<Value> {
    if DefinesValue(i) then Some(Def(i.id)) else if i.AllocInst? then Some(Alloc(i.id)) else None
  }

  // The instruction at u, which is not a phi, uses the one at d.
  ghost predicate Uses(f: Function, d: Pos, u: Pos) {
    && Within(f, d) && Within(f, u) && !InstAt(f, u).PhiInst?
    && ValueOf(InstAt(f, d)).Some? && UsesValue(InstAt(f, u), ValueOf(InstAt(f, d)).value)
  }

  ghost predicate DominatesAt(f: Function, d: Pos, u: Pos)
    requires ValidFunction(f)
  {
    if d.block == u.block then d.index < u.index else Dom(CfgOf(f), d.block, u.block)
  }

  lemma DominatesMeans(f: Function, d: Pos, u: Pos)
    requires ValidFunction(f)
    ensures DominatesAt(f, d, u) <==> if d.block == u.block then d.index < u.index else Dom(CfgOf(f), d.block, u.block)
  {
  }

  // What is to be reported about the users of one instruction.
  ghost predicate UsersDominated(f: Function, d: Pos)
    requires ValidFunction(f)
  {
    forall u {:trigger Uses(f, d, u)} :: Uses(f, d, u) ==> DominatesAt(f, d, u)
  }

  /** Nothing to report. */
  ghost predicate Verified(f: Function)
    requires ValidFunction(f)
  {
    forall d {:trigger UsersDominated(f, d)} :: Within(f, d) ==> UsersDominated(f, d)
  }

  // The tree is only asked about blocks that it holds: what is used in a block that cannot be reached is computed in
  // that block.
  ghost predicate UsesReachable(f: Function)
    requires ValidFunction(f)
  {
    forall d, u {:trigger Uses(f, d, u)} :: Uses(f, d, u) && d.block != u.block ==> Reachable(CfgOf(f), u.block)
  }

  lemma InDoms(f: Function, d: Pos, u: Pos, cfa: ControlFlowAnalysis, index: Index, doms: Parents)
    requires ValidFunction(f) && UsesReachable(f) && cfa.Exact(f, index, doms) && Uses(f, d, u)
    ensures d.block != u.block ==> u.block in doms
  {
    hide Uses;
  }

  method CheckUsers(f: Function, d: Pos, users: seq<Pos>, cfa: ControlFlowAnalysis, ghost index: Index,
      ghost doms: Parents) returns (errors: nat)
    requires ValidFunction(f) && UsesReachable(f) && cfa.Exact(f, index, doms)
    requires forall u :: u in users ==> Within(f, u) && (!InstAt(f, u).PhiInst? ==> Uses(f, d, u))
    ensures errors == 0 <==> forall u :: u in users && !InstAt(f, u).PhiInst? ==> DominatesAt(f, d, u)
  {
    hide *;
    errors := 0;
    var k := 0;
    while k < |users|
      invariant 0 <= k <= |users|
      invariant errors == 0 <==> forall j :: 0 <= j < k && !InstAt(f, users[j]).PhiInst? ==> DominatesAt(f, d, users[j])
    {
      var u := users[k];
      k := k + 1;
      // Phis are ignored.
      if InstAt(f, u).PhiInst? {
        continue;
      }
      InDoms(f, d, u, cfa, index, doms);
      var r := cfa.Dominates(f, d, u, index, doms);
      DominatesMeans(f, d, u);
      if !r {
        errors := errors + 1;
      }
    }
  }

  method CheckInst(f: Function, d: Pos, cfa: ControlFlowAnalysis, ghost index: Index, ghost doms: Parents)
      returns (errors: nat)
    requires ValidFunction(f) && UsesReachable(f) && cfa.Exact(f, index, doms) && Within(f, d)
    ensures errors == 0 <==> UsersDominated(f, d)
  {
    hide UsesReachable, ControlFlowAnalysis.Exact, DominatesAt;
    var v := ValueOf(InstAt(f, d));
    if v.None? {
      return 0;
    }
    var users := Users(f, f.order, v.value);
    forall u
      ensures u in users && !InstAt(f, u).PhiInst? <==> Uses(f, d, u)
    {
    }
    errors := CheckUsers(f, d, users, cfa, index, doms);
  }

  method CheckBlock(f: Function, b: BlockId, cfa: ControlFlowAnalysis, ghost index: Index, ghost doms: Parents)
      returns (errors: nat)
    requires ValidFunction(f) && UsesReachable(f) && cfa.Exact(f, index, doms) && b in f.blocks
    ensures errors == 0 <==> forall k: nat :: k < |f.blocks[b]| ==> UsersDominated(f, Pos(b, k))
  {
    hide UsesReachable, UsersDominated, ControlFlowAnalysis.Exact, ValidFunction;
    errors := 0;
    var k := 0;
    while k < |f.blocks[b]|
      invariant 0 <= k <= |f.blocks[b]|
      invariant errors == 0 <==> forall j: nat :: j < k ==> UsersDominated(f, Pos(b, j))
    {
      var e := CheckInst(f, Pos(b, k), cfa, index, doms);
      errors := errors + e;
      k := k + 1;
    }
  }

  /** Reports nothing exactly when every instruction dominates its uses, phis left aside. */
  method RunOn(f: Function, cfa: ControlFlowAnalysis, ghost index: Index, ghost doms: Parents) returns (errors: nat)
    requires ValidFunction(f) && UsesReachable(f) && cfa.Exact(f, index, doms)
    ensures errors == 0 <==> Verified(f)
  {
    hide UsesReachable, UsersDominated, ControlFlowAnalysis.Exact;
    errors := 0;
    var o := 0;
    while o < |f.order|
      invariant 0 <= o <= |f.order|
      invariant errors == 0 <==>
          forall i, k: nat :: 0 <= i < o && k < |f.blocks[f.order[i]]| ==> UsersDominated(f, Pos(f.order[i], k))
    {
      var e := CheckBlock(f, f.order[o], cfa, index, doms);
      errors := errors + e;
      o := o + 1;
    }
    if errors == 0 {
      forall d | Within(f, d)
        ensures UsersDominated(f, d)
      {
        assert d.block in f.order;
        var i :| 0 <= i < |f.order| && f.order[i] == d.block;
        assert UsersDominated(f, Pos(f.order[i], d.index));
      }
    }
  }

  // ---- What the check says of operands

  // Every result that an instruction other than a phi has as an operand is computed before it.
  ghost predicate ResultsDominate(f: Function, at: Places)
    requires ValidFunction(f)
  {
    forall x, u {:trigger at[x], InstAt(f, u)} ::
      x in at && Within(f, u) && !InstAt(f, u).PhiInst? && Def(x) in Operands(InstAt(f, u)) ==>
      if at[x].block == u.block then at[x].index < u.index else Dom(CfgOf(f), at[x].block, u.block)
  }

  // Every variable whose address one has as an operand is declared before it.
  ghost predicate VariablesDominate(f: Function)
    requires ValidFunction(f)
  {
    forall d, u, a {:trigger InstAt(f, d), InstAt(f, u), Alloc(a)} ::
      Within(f, d) && InstAt(f, d) == AllocInst(a)
      && Within(f, u) && !InstAt(f, u).PhiInst? && Alloc(a) in Operands(InstAt(f, u)) ==>
      if d.block == u.block then d.index < u.index else Dom(CfgOf(f), d.block, u.block)
  }

  lemma UsesResult(f: Function, at: Places, d: Pos, u: Pos)
    requires Located(f, at) && Uses(f, d, u) && DefinesValue(InstAt(f, d))
    ensures var x := InstAt(f, d).id; x in at && at[x] == d && Def(x) in Operands(InstAt(f, u))
  {
  }

  lemma UsedResult(f: Function, at: Places, x: nat, u: Pos)
    requires Located(f, at) && x in at && Within(f, u) && !InstAt(f, u).PhiInst? && Def(x) in Operands(InstAt(f, u))
    ensures Uses(f, at[x], u)
  {
    assert DefinesAt(f, x, at[x]);
  }

  lemma UsedVariable(f: Function, d: Pos, u: Pos, a: nat)
    requires Within(f, d) && InstAt(f, d) == AllocInst(a)
    requires Within(f, u) && !InstAt(f, u).PhiInst? && Alloc(a) in Operands(InstAt(f, u))
    ensures Uses(f, d, u)
  {
  }

  /** Nothing is reported exactly when results are computed and variables declared before the instructions that have
      them as operands, phis left aside. */
  lemma VerifiedOperands(f: Function, at: Places)
    requires ValidFunction(f) && Located(f, at)
    ensures Verified(f) <==> ResultsDominate(f, at) && VariablesDominate(f)
  {
    hide ValidFunction, Located, CfgOf, Dom, Operands, Uses;
    if Verified(f) {
      forall x, u | x in at && Within(f, u) && !InstAt(f, u).PhiInst? && Def(x) in Operands(InstAt(f, u))
        ensures DominatesAt(f, at[x], u)
      {
        UsedResult(f, at, x, u);
        UsesAreWithin(f, at[x], u);
        assert UsersDominated(f, at[x]);
      }
      forall d, u, a | Within(f, d) && InstAt(f, d) == AllocInst(a) && Within(f, u) && !InstAt(f, u).PhiInst?
        && Alloc(a) in Operands(InstAt(f, u))
        ensures DominatesAt(f, d, u)
      {
        UsedVariable(f, d, u, a);
        assert UsersDominated(f, d);
      }
    }
    if ResultsDominate(f, at) && VariablesDominate(f) {
      forall d, u | Uses(f, d, u)
        ensures DominatesAt(f, d, u)
      {
        UseDominated(f, at, d, u);
      }
    }
  }

  lemma UseDominated(f: Function, at: Places, d: Pos, u: Pos)
    requires ValidFunction(f) && Located(f, at) && ResultsDominate(f, at) && VariablesDominate(f) && Uses(f, d, u)
    ensures DominatesAt(f, d, u)
  {
    hide ValidFunction, Located, CfgOf, Dom;
    if DefinesValue(InstAt(f, d)) {
      UsesResult(f, at, d, u);
    } else {
      assert InstAt(f, d) == AllocInst(InstAt(f, d).id);
    }
  }

  ghost predicate PhisFirst(f: Function) {
    forall d, u {:trigger IsPhi(f, d), InstAt(f, u)} ::
      IsPhi(f, d) && Within(f, u) && !InstAt(f, u).PhiInst? && d.block == u.block ==> d.index < u.index
  }

  ghost predicate OperandsKnown(f: Function, at: Places) {
    forall x, u {:trigger Def(x), InstAt(f, u)} :: Within(f, u) && Def(x) in Operands(InstAt(f, u)) ==> x in at
  }

  /** In a function whose phis come first and whose operands are all computed somewhere, that is the half of static
      single assignment that speaks of instructions other than phis. */
  lemma VerifiedIsAvailable(f: Function, at: Places)
    requires ValidFunction(f) && Located(f, at) && PhisFirst(f) && OperandsKnown(f, at)
    ensures Verified(f) <==>
      (forall p {:trigger InstAt(f, p)} :: Within(f, p) && !InstAt(f, p).PhiInst? ==> OperandsAvail(f, at, p))
        && VariablesDominate(f)
  {
    hide ValidFunction, Located, CfgOf, Dom, Verified, VariablesDominate;
    VerifiedOperands(f, at);
    if ResultsDominate(f, at) {
      forall p | Within(f, p) && !InstAt(f, p).PhiInst?
        ensures OperandsAvail(f, at, p)
      {
      }
    }
    if forall p :: Within(f, p) && !InstAt(f, p).PhiInst? ==> OperandsAvail(f, at, p) {
      forall x, u | x in at && Within(f, u) && !InstAt(f, u).PhiInst? && Def(x) in Operands(InstAt(f, u))
        ensures DominatesAt(f, at[x], u)
      {
        assert OperandsAvail(f, at, u);
      }
    }
  }

  // ---- What the check means for runs

  // When control is before instruction k of the last block of the path, the instruction at d has run.
  ghost predicate HasRun(path: seq<BlockId>, k: nat, d: Pos) {
    path != [] && (d.block in path[..|path| - 1] || (d.block == path[|path| - 1] && d.index < k))
  }

  // Along every path every instruction that is not a phi runs after the instructions it uses.
  ghost predicate UsesRunAfter(f: Function)
    requires ValidFunction(f)
  {
    forall path, d, u {:trigger UseRunsAfter(f, path, d, u)} :: UseRunsAfter(f, path, d, u)
  }

  ghost predicate UseRunsAfter(f: Function, path: seq<BlockId>, d: Pos, u: Pos)
    requires ValidFunction(f)
  {
    Uses(f, d, u) && IsPath(CfgOf(f), path, u.block) ==> HasRun(path, u.index, d)
  }

  lemma DominatedRuns(f: Function, path: seq<BlockId>, d: Pos, u: Pos)
    requires ValidFunction(f) && Uses(f, d, u) && DominatesAt(f, d, u) && IsPath(CfgOf(f), path, u.block)
    ensures HasRun(path, u.index, d)
  {
    if d.block != u.block {
      var i :| 0 <= i < |path| && path[i] == d.block;
      assert path[..|path| - 1][i] == d.block;
    }
  }

  lemma NotDominatedFails(f: Function, d: Pos, u: Pos) returns (path: seq<BlockId>)
    requires ValidFunction(f) && AllReachable(f) && Uses(f, d, u) && !DominatesAt(f, d, u)
    ensures IsPath(CfgOf(f), path, u.block) && !HasRun(path, u.index, d)
  {
    if d.block == u.block {
      assert Reachable(CfgOf(f), u.block);
      var p :| IsPath(CfgOf(f), p, u.block);
      var i := FirstVisit(p, u.block);
      PathPrefix(CfgOf(f), p, u.block, i);
      path := p[..i + 1];
      assert path[..|path| - 1] == p[..i];
    } else {
      path :| IsPath(CfgOf(f), path, u.block) && d.block !in path;
      assert forall j :: 0 <= j < |path| - 1 ==> path[..|path| - 1][j] == path[j];
    }
  }

  /** The verifier reports nothing exactly when on every path from the entry every instruction
      that is not a phi runs only after all instructions it uses have run. */
  lemma VerifiedMeansDefinedBeforeUse(f: Function)
    requires ValidFunction(f) && AllReachable(f)
    ensures Verified(f) <==> UsesRunAfter(f)
  {
    hide AllReachable, Uses, DominatesAt, HasRun, Dom;
    if Verified(f) {
      VerifiedRunsAfter(f);
    }
    if UsesRunAfter(f) {
      forall d, u | Within(f, d) && Uses(f, d, u)
        ensures DominatesAt(f, d, u)
      {
        if !DominatesAt(f, d, u) {
          var path := NotDominatedFails(f, d, u);
          var runs := UseRunsAfter(f, path, d, u);
        }
      }
    }
  }

  // One direction holds with blocks that cannot be reached, too.
  lemma VerifiedRunsAfter(f: Function)
    requires ValidFunction(f) && Verified(f)
    ensures UsesRunAfter(f)
  {
    hide Uses, DominatesAt, HasRun, Dom;
    forall path, d, u
      ensures UseRunsAfter(f, path, d, u)
    {
      if Uses(f, d, u) && IsPath(CfgOf(f), path, u.block) {
        UsesAreWithin(f, d, u);
        assert UsersDominated(f, d);
        DominatedRuns(f, path, d, u);
      }
    }
  }

  lemma UsesAreWithin(f: Function, d: Pos, u: Pos)
    requires Uses(f, d, u)
    ensures Within(f, d) && Within(f, u)
  {
  }

  // ---- Runs follow paths

  // The blocks entered by the first n steps of a run, in order.
  ghost function Entered(f: Function, o: Outcome, n: nat): seq<BlockId>
    decreases n
  {
    if !o.Jump? then [] else if n == 0 then [o.dst] else [o.dst] + Entered(f, StepBlock(f, o.dst, o.st), n - 1)
  }

  lemma StepIsEdge(f: Function, b: BlockId, st: State)
    requires ValidFunction(f) && StepBlock(f, b, st).Jump?
    ensures HasEdge(CfgOf(f), b, StepBlock(f, b, st).dst)
  {
    ExecTarget(f.blocks[b], st);
    CfgEdges(f, b, StepBlock(f, b, st).dst);
  }

  lemma {:induction false} EnteredIsWalk(f: Function, o: Outcome, n: nat)
    requires ValidFunction(f) && o.Jump?
    ensures IsWalk(CfgOf(f), Entered(f, o, n)) && Entered(f, o, n)[0] == o.dst
    ensures Ir.Run(f, o, n).Jump? ==> Entered(f, o, n)[|Entered(f, o, n)| - 1] == Ir.Run(f, o, n).dst
    decreases n
  {
    hide StepBlock;
    if n > 0 {
      var next := StepBlock(f, o.dst, o.st);
      if next.Jump? {
        StepIsEdge(f, o.dst, o.st);
        EnteredIsWalk(f, next, n - 1);
      }
    }
  }

  /** In every run of a verified function, when a block has been entered, each of its
      instructions that is not a phi comes after all instructions it uses. */
  lemma VerifiedRuns(f: Function, st: State, n: nat, d: Pos, u: Pos)
    requires ValidFunction(f) && Verified(f)
    requires RunFunction(f, st, n).Jump? && RunFunction(f, st, n).dst == u.block && Uses(f, d, u)
    ensures HasRun(Entered(f, Jump(Entry(f), st.(env := map[])), n), u.index, d)
  {
    hide Uses, UsersDominated, Verified, HasRun;
    var o := Jump(Entry(f), st.(env := map[]));
    EnteredIsWalk(f, o, n);
    VerifiedRunsAfter(f);
    assert UseRunsAfter(f, Entered(f, o, n), d, u);
  }
}

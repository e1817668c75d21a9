/** Replacing results by equal values, dropping instructions and promoting cells keep every run. */
module Rewrite {
  import opened Words
  import opened Graph
  import opened Dominance
  import opened Ir
  import opened Ssa

  // What stands for the cells when control enters a block, if no phi does, and the phis that do.
  type Held = map<BlockId, map<Value, Value>>
  type Merged = map<BlockId, map<Value, nat>>

  // What a transform does to a function: subst replaces uses of results; the results in dropped
  // lose their instruction; stores to the cells are removed; phis are put in front of blocks. Held and merged
  // say what stands for the cells behind these phis.
  datatype Plan = Plan(subst: Subst, dropped: set<nat>, cells: set<Value>, phis: map<BlockId, Block>, held: Held,
                       merged: Merged)

  predicate Drops(w: Plan, i: Inst) {
    (DefinesValue(i) && i.id in w.dropped) || (i.StoreInst? && i.ptr in w.cells)
  }

  function RewriteInst(w: Plan, i: Inst): Block {
    if Drops(w, i) then [] else [RenameInst(w.subst, i)]
  }

  function RewriteBlock(w: Plan, b: Block): Block {
    if b == [] then [] else RewriteInst(w, b[0]) + RewriteBlock(w, b[1..])
  }

  function NewPhis(w: Plan, b: BlockId): Block {
    if b in w.phis then w.phis[b] else []
  }

  function Rewritten(f: Function, w: Plan): Function {
    Function(f.order, map b | b in f.blocks :: NewPhis(w, b) + RewriteBlock(w, f.blocks[b]))
  }

  // ---- What stands for a cell

  predicate StoresTo(i: Inst, cell: Value) {
    i.StoreInst? && i.ptr == cell
  }

  predicate LoadsFrom(i: Inst, cell: Value) {
    i.LoadInst? && i.ptr == cell
  }

  // What the instructions store to the cell last.
  function LastStored(b: Block, cell: Value): Option<Value> {
    if b == [] then None
    else if StoresTo(b[|b| - 1], cell) then Some(b[|b| - 1].val)
    else LastStored(b[..|b| - 1], cell)
  }

  function MergedAt(w: Plan, b: BlockId, cell: Value): Option<nat> {
    if b in w.merged then Lookup(w.merged[b], cell) else None
  }

  function HeldAt(w: Plan, b: BlockId, cell: Value): Option<Value> {
    if MergedAt(w, b, cell).Some? then Some(Def(MergedAt(w, b, cell).value))
    else if b in w.held then Lookup(w.held[b], cell)
    else None
  }

  // What stands for the cell in front of instruction k of a block.
  function ValueHeld(f: Function, w: Plan, b: BlockId, k: nat, cell: Value): Option<Value>
    requires b in f.blocks && k <= |f.blocks[b]|
  {
    var v := LastStored(f.blocks[b][..k], cell);
    if v.Some? then Some(Apply(w.subst, v.value)) else HeldAt(w, b, cell)
  }

  lemma HeldNext(f: Function, w: Plan, b: BlockId, k: nat, cell: Value)
    requires b in f.blocks && k < |f.blocks[b]|
    ensures var i := f.blocks[b][k];
      ValueHeld(f, w, b, k + 1, cell)
        == if StoresTo(i, cell) then Some(Apply(w.subst, i.val)) else ValueHeld(f, w, b, k, cell)
  {
    assert f.blocks[b][..k + 1][..k] == f.blocks[b][..k];
  }

  // From instruction k of block b on, the cell is loaded after at most n steps, before anything is stored to it.
  ghost predicate WantedWithin(f: Function, b: BlockId, k: nat, cell: Value, n: nat)
    requires ValidFunction(f)
    decreases n
  {
    && n > 0 && b in f.blocks && k <= |f.blocks[b]|
    && if k < |f.blocks[b]| then
         LoadsFrom(f.blocks[b][k], cell)
           || (!StoresTo(f.blocks[b][k], cell) && WantedWithin(f, b, k + 1, cell, n - 1))
       else exists d :: HasEdge(CfgOf(f), b, d) && WantedWithin(f, d, 0, cell, n - 1)
  }

  /** Along some path the cell is loaded before it is stored to. */
  ghost predicate Wanted(f: Function, b: BlockId, k: nat, cell: Value)
    requires ValidFunction(f)
  {
    exists n: nat :: WantedWithin(f, b, k, cell, n)
  }

  lemma WantedHere(f: Function, b: BlockId, k: nat, cell: Value)
    requires ValidFunction(f) && b in f.blocks && k < |f.blocks[b]| && LoadsFrom(f.blocks[b][k], cell)
    ensures Wanted(f, b, k, cell)
  {
    assert WantedWithin(f, b, k, cell, 1);
  }

  lemma WantedBefore(f: Function, b: BlockId, k: nat, cell: Value)
    requires ValidFunction(f) && b in f.blocks && k < |f.blocks[b]| && !StoresTo(f.blocks[b][k], cell)
    requires Wanted(f, b, k + 1, cell)
    ensures Wanted(f, b, k, cell)
  {
    hide ValidFunction;
    var n: nat :| WantedWithin(f, b, k + 1, cell, n);
    assert WantedWithin(f, b, k, cell, n + 1);
  }

  lemma WantedAcross(f: Function, b: BlockId, d: BlockId, cell: Value)
    requires ValidFunction(f) && b in f.blocks && HasEdge(CfgOf(f), b, d) && Wanted(f, d, 0, cell)
    ensures Wanted(f, b, |f.blocks[b]|, cell)
  {
    hide ValidFunction, CfgOf;
    var n: nat :| WantedWithin(f, d, 0, cell, n);
    assert WantedWithin(f, b, |f.blocks[b]|, cell, n + 1);
  }

  // ---- When a plan is justified

  ghost predicate Source(f: Function, at: Places, v: Value, p: Pos)
    requires ValidFunction(f)
  {
    v.Def? ==> SourceAvail(f, at, v.id, p)
  }

  // Why the result of the instruction at p may be replaced.
  ghost predicate Justified(f: Function, w: Plan, p: Pos)
    requires ValidFunction(f) && Within(f, p)
  {
    var s := w.subst;
    match InstAt(f, p)
    case BinaryInst(id, op, lhs, rhs) =>
      && id in w.dropped && id in s && Apply(s, lhs).Const? && Apply(s, rhs).Const?
      && s[id] == Const(EvalBinary(op, Apply(s, lhs).word, Apply(s, rhs).word))
    case CompareInst(id, pred, lhs, rhs) =>
      && id in w.dropped && id in s && Apply(s, lhs).Const? && Apply(s, rhs).Const?
      && s[id] == Const(EvalCompare(pred, Apply(s, lhs).word, Apply(s, rhs).word))
    case PhiInst(id, incoming) =>
      && id in w.dropped && id in s
      && exists b {:trigger b in incoming} :: b in incoming && s[id] == Apply(s, incoming[b])
           && forall c :: HasEdge(CfgOf(f), c, p.block) ==> c == b
    case LoadInst(id, ptr) =>
      id !in w.dropped && id in s && ptr in w.cells && Some(s[id]) == ValueHeld(f, w, p.block, p.index, ptr)
    case _ => false
  }

  ghost predicate JustifiedUse(f: Function, at: Places, w: Plan, x: nat)
    requires ValidFunction(f) && Located(f, at) && x in at
  {
    && x in w.subst && Justified(f, w, at[x])
    && (!InstAt(f, at[x]).LoadInst? ==> Source(f, at, w.subst[x], at[x]))
  }

  // Nothing is replaced by what is replaced itself.
  ghost predicate Resolved(s: Subst) {
    forall x {:trigger s[x]} :: x in s && s[x].Def? ==> s[x].id !in s
  }

  predicate NewIn(w: Plan, y: nat, d: BlockId) {
    FindPhi(NewPhis(w, d), y).Some?
  }

  // On the edge from p the cell comes to be what it is to be in b.
  ghost predicate FlowsIn(f: Function, w: Plan, p: BlockId, b: BlockId, cell: Value)
    requires p in f.blocks
  {
    var phi, from := MergedAt(w, b, cell), ValueHeld(f, w, p, |f.blocks[p]|, cell);
    if phi.Some? then NewIn(w, phi.value, b) && Lookup(FindPhi(NewPhis(w, b), phi.value).value, p) == from
    else HeldAt(w, b, cell) == from
  }

  // Nothing stands for the cell at first, unless it is a phi of the entry.
  ghost predicate StartsEmpty(f: Function, w: Plan, cell: Value)
    requires |f.order| > 0
  {
    var phi := MergedAt(w, Entry(f), cell);
    if phi.Some? then NewIn(w, phi.value, Entry(f)) else HeldAt(w, Entry(f), cell) == None
  }

  /** Wherever a cell is still to be loaded, one value stands for it, on whichever edge control comes: that of the
      predecessor, or that of an inserted phi which takes that value. */
  ghost predicate CellsFlow(f: Function, w: Plan)
    requires ValidFunction(f)
  {
    && (forall p, b, cell {:trigger FlowsIn(f, w, p, b, cell)} ::
         cell in w.cells && CanRun(f, p) && p in f.blocks && HasEdge(CfgOf(f), p, b) && Wanted(f, b, 0, cell) ==>
          FlowsIn(f, w, p, b, cell))
    && (forall cell {:trigger StartsEmpty(f, w, cell)} :: cell in w.cells && Wanted(f, Entry(f), 0, cell) ==>
         StartsEmpty(f, w, cell))
  }

  ghost predicate PhisNew(at: Places, w: Plan) {
    && (forall b, k :: b in w.phis && 0 <= k < |w.phis[b]| ==> w.phis[b][k].PhiInst? && w.phis[b][k].id !in at)
    && (forall b, c, x {:trigger FindPhi(NewPhis(w, b), x), FindPhi(NewPhis(w, c), x)} ::
         FindPhi(NewPhis(w, b), x).Some? && FindPhi(NewPhis(w, c), x).Some? ==> b == c)
  }

  ghost predicate LoadServed(f: Function, w: Plan, p: Pos)
    requires Within(f, p) && InstAt(f, p).LoadInst?
  {
    Lookup(w.subst, InstAt(f, p).id) == ValueHeld(f, w, p.block, p.index, InstAt(f, p).ptr)
  }

  /** A plan is sound when every replacement in reachable code is justified, and nothing else is lost. */
  ghost predicate Sound(f: Function, at: Places, w: Plan)
    requires ValidFunction(f) && Located(f, at)
  {
    && w.dropped <= w.subst.Keys <= at.Keys && Resolved(w.subst)
    && (forall c :: c in w.cells ==> c.Alloc?)
    && (forall x {:trigger x in w.subst} :: x in w.subst && Reachable(CfgOf(f), at[x].block) ==>
         JustifiedUse(f, at, w, x))
    && (forall p {:trigger InstAt(f, p)} ::
         Within(f, p) && Reachable(CfgOf(f), p.block) && InstAt(f, p).LoadInst? && InstAt(f, p).ptr in w.cells ==>
          LoadServed(f, w, p))
    && PhisNew(at, w) && CellsFlow(f, w)
  }

  // A well-formed function with a sound plan for it.
  datatype Job = Job(f: Function, at: Places, w: Plan)

  ghost predicate IsSoundJob(j: Job) {
    WellFormed(j.f, j.at) && Sound(j.f, j.at, j.w)
  }

  type SoundJob = j: Job | IsSoundJob(j) ghost witness TrivialJob()

  ghost function TrivialJob(): (j: Job)
    ensures IsSoundJob(j)
  {
    ReturnZeroFacts();
    Job(ReturnZero(), map[], Plan(map[], {}, {}, map[], map[], map[]))
  }

  // ---- Where the values that stand for cells are defined

  // The result y, of the function or of an inserted phi, is that of an instruction in block d.
  predicate IsHome(at: Places, w: Plan, y: nat, d: BlockId) {
    if y in at then at[y].block == d else NewIn(w, y, d)
  }

  ghost predicate OnPath(at: Places, w: Plan, p: seq<BlockId>, y: nat) {
    exists d {:trigger d in p} :: d in p && IsHome(at, w, y, d)
  }

  // When control has come along the path to instruction k of its last block, y has been defined.
  ghost predicate DefinedOn(f: Function, at: Places, w: Plan, p: seq<BlockId>, k: nat, y: nat)
    requires p != []
  {
    || OnPath(at, w, p[..|p| - 1], y)
    || (IsHome(at, w, y, p[|p| - 1]) && (y in at ==> IsPhi(f, at[y]) || at[y].index < k))
  }

  lemma AvailDefined(f: Function, at: Places, w: Plan, p: seq<BlockId>, b: BlockId, k: nat, y: nat)
    requires ValidFunction(f) && IsPath(CfgOf(f), p, b) && Avail(f, at, y, b, k)
    ensures p != [] && DefinedOn(f, at, w, p, k, y)
  {
    if at[y].block != b {
      assert at[y].block in p[..|p| - 1] by {
        var i :| 0 <= i < |p| && p[i] == at[y].block;
        assert p[..|p| - 1][i] == at[y].block;
      }
    }
  }

  lemma DefinedEarlier(f: Function, at: Places, w: Plan, p: seq<BlockId>, i: nat, m: nat, k: nat, y: nat)
    requires i < |p| && DefinedOn(f, at, w, p[..i + 1], m, y) && (i == |p| - 1 ==> m <= k)
    ensures DefinedOn(f, at, w, p, k, y)
  {
    var q := p[..i + 1];
    if i == |p| - 1 {
      assert q == p;
    } else {
      assert q[..|q| - 1] == p[..i] && q[|q| - 1] == p[i];
      assert p[i] == p[..|p| - 1][i];
      if OnPath(at, w, p[..i], y) {
        var d :| d in p[..i] && IsHome(at, w, y, d);
        assert p[..i] == p[..|p| - 1][..i];
        assert d in p[..|p| - 1];
      } else {
        assert p[i] in p[..|p| - 1];
      }
    }
  }

  lemma DefinerReachable(f: Function, at: Places, x: nat, c: BlockId, k: nat)
    requires ValidFunction(f) && Avail(f, at, x, c, k) && Reachable(CfgOf(f), c)
    ensures Reachable(CfgOf(f), at[x].block)
  {
    if at[x].block != c {
      DominatorReachable(CfgOf(f), at[x].block, c);
    }
  }

  lemma DefinedHere(f: Function, at: Places, x: nat)
    requires Located(f, at) && x in at
    ensures Within(f, at[x]) && DefinesValue(InstAt(f, at[x])) && InstAt(f, at[x]).id == x
  {
  }

  lemma OperandAvail(j: SoundJob, b: BlockId, k: nat, v: Value)
    requires b in j.f.blocks && k < |j.f.blocks[b]| && v in Operands(j.f.blocks[b][k]) && v.Def?
    ensures Avail(j.f, j.at, v.id, b, k)
  {
    hide Sound, Located, IncomingAvail, Avail;
    assert OperandsAvail(j.f, j.at, Pos(b, k));
    assert v == Def(v.id);
  }

  lemma ReachableIsBlock(f: Function, b: BlockId)
    requires ValidFunction(f) && Reachable(CfgOf(f), b)
    ensures b in f.blocks && CanRun(f, b)
  {
    var p :| IsPath(CfgOf(f), p, b);
    if |p| > 1 {
      assert HasEdge(CfgOf(f), p[|p| - 2], p[|p| - 2 + 1]);
      CfgEdges(f, p[|p| - 2], b);
    } else {
      assert Entry(f) in f.order;
    }
  }

  // What a promoted load is replaced by stands for its cell.
  lemma LoadReplacement(j: SoundJob, x: nat)
    requires x in j.w.subst && x in j.at && Reachable(CfgOf(j.f), j.at[x].block) && Within(j.f, j.at[x])
    requires InstAt(j.f, j.at[x]).LoadInst?
    ensures var p := j.at[x]; var cell := InstAt(j.f, p).ptr;
      && cell in j.w.cells && Wanted(j.f, p.block, p.index, cell)
      && ValueHeld(j.f, j.w, p.block, p.index, cell) == Some(j.w.subst[x])
  {
    hide Wanted, WellFormed, CellsFlow, ValueHeld;
    var p := j.at[x];
    JobFacts(j);
    DefinedHere(j.f, j.at, x);
    assert JustifiedUse(j.f, j.at, j.w, x);
    WantedHere(j.f, p.block, p.index, InstAt(j.f, p).ptr);
  }

  lemma JobFacts(j: SoundJob)
    ensures WellFormed(j.f, j.at) && ValidFunction(j.f) && Located(j.f, j.at)
    ensures Resolved(j.w.subst) && PhisNew(j.at, j.w) && CellsFlow(j.f, j.w) && j.w.subst.Keys <= j.at.Keys
  {
    hide Located, OperandsAvail, IncomingAvail, JustifiedUse, LoadServed;
  }

  lemma OtherReplacement(j: SoundJob, x: nat)
    requires x in j.w.subst && x in j.at && Reachable(CfgOf(j.f), j.at[x].block) && Within(j.f, j.at[x])
    requires !InstAt(j.f, j.at[x]).LoadInst?
    ensures ValidFunction(j.f) && Source(j.f, j.at, j.w.subst[x], j.at[x])
  {
    hide WellFormed, CellsFlow, PhisNew, LoadServed, Justified;
    JobFacts(j);
    assert JustifiedUse(j.f, j.at, j.w, x);
  }

  lemma OnPathAt(p: seq<BlockId>, b: BlockId, d: BlockId) returns (i: nat)
    requires p != [] && p[|p| - 1] == b && d in p
    ensures i < |p| && p[i] == d && (d != b ==> i < |p| - 1) && (d == b ==> i == |p| - 1)
  {
    if d == b {
      i := |p| - 1;
    } else {
      i :| 0 <= i < |p| && p[i] == d;
    }
  }

  // The replacement of an operand has been defined on every path.
  lemma {:induction false} OperandDefined(j: SoundJob, p: seq<BlockId>, b: BlockId, k: nat, v: Value, y: nat)
    requires IsPath(CfgOf(j.f), p, b) && b in j.f.blocks && k < |j.f.blocks[b]|
    requires v in Operands(j.f.blocks[b][k]) && Apply(j.w.subst, v) == Def(y)
    ensures p != [] && DefinedOn(j.f, j.at, j.w, p, k, y) && y !in j.w.subst
    decreases |p|, k + 1
  {
    hide Wanted, Sound, WellFormed, ValueHeld, Located, DefinedOn;
    JobFacts(j);
    OperandAvail(j, b, k, v);
    if v.id !in j.w.subst {
      AvailDefined(j.f, j.at, j.w, p, b, k, y);
      return;
    }
    var d := j.at[v.id];
    DefinedHere(j.f, j.at, v.id);
    DefinerReachable(j.f, j.at, v.id, b, k);
    if InstAt(j.f, d).LoadInst? {
      LoadReplacement(j, v.id);
      var i := OnPathAt(p, b, d.block);
      PathPrefix(CfgOf(j.f), p, b, i);
      assert i == |p| - 1 ==> p[..i + 1] == p;
      HeldDefined(j, p[..i + 1], d.block, d.index, InstAt(j.f, d).ptr, y);
      DefinedEarlier(j.f, j.at, j.w, p, i, d.index, k, y);
    } else {
      OtherReplacement(j, v.id);
      AvailTrans(j.f, j.at, y, d, b, k);
      AvailDefined(j.f, j.at, j.w, p, b, k, y);
    }
  }

  lemma NewIsHome(j: SoundJob, y: nat, b: BlockId)
    requires NewIn(j.w, y, b)
    ensures y !in j.at && IsHome(j.at, j.w, y, b)
  {
    hide WellFormed, CellsFlow, JustifiedUse, LoadServed;
    JobFacts(j);
    FindPhiSome(NewPhis(j.w, b), y);
  }

  // What stands for a wanted cell has been defined on every path.
  lemma {:induction false} HeldDefined(j: SoundJob, p: seq<BlockId>, b: BlockId, k: nat, cell: Value, y: nat)
    requires IsPath(CfgOf(j.f), p, b) && b in j.f.blocks && k <= |j.f.blocks[b]|
    requires cell in j.w.cells && Wanted(j.f, b, k, cell) && ValueHeld(j.f, j.w, b, k, cell) == Some(Def(y))
    ensures p != [] && DefinedOn(j.f, j.at, j.w, p, k, y) && y !in j.w.subst
    decreases |p|, k + 1
  {
    hide Wanted, Sound, WellFormed, ValueHeld, Located, NewIn, IsHome;
    JobFacts(j);
    if k == 0 {
      HeldFirst(j.f, j.w, b, cell);
      if MergedAt(j.w, b, cell).Some? {
        MergedIsNew(j, p, b, cell);
        NewIsHome(j, y, b);
      } else {
        HeldEntryDefined(j, p, b, cell, y);
      }
      return;
    }
    HeldNext(j.f, j.w, b, k - 1, cell);
    var i := j.f.blocks[b][k - 1];
    assert p[..|p| - 1 + 1] == p;
    if StoresTo(i, cell) {
      OperandDefined(j, p, b, k - 1, i.val, y);
    } else {
      WantedBefore(j.f, b, k - 1, cell);
      HeldDefined(j, p, b, k - 1, cell, y);
    }
    DefinedEarlier(j.f, j.at, j.w, p, |p| - 1, k - 1, k, y);
  }

  // A phi that stands for a wanted cell is there.
  lemma MergedIsNew(j: SoundJob, p: seq<BlockId>, b: BlockId, cell: Value)
    requires IsPath(CfgOf(j.f), p, b) && cell in j.w.cells && Wanted(j.f, b, 0, cell)
    requires MergedAt(j.w, b, cell).Some?
    ensures NewIn(j.w, MergedAt(j.w, b, cell).value, b)
  {
    hide Wanted, Sound, WellFormed, ValueHeld, NewIn;
    JobFacts(j);
    if |p| == 1 {
      assert StartsEmpty(j.f, j.w, cell);
    } else {
      assert HasEdge(CfgOf(j.f), p[|p| - 2], p[|p| - 2 + 1]);
      PathPrefix(CfgOf(j.f), p, b, |p| - 2);
      FlowFrom(j, p[|p| - 2], b, cell);
    }
  }

  lemma HeldFirst(f: Function, w: Plan, b: BlockId, cell: Value)
    requires b in f.blocks
    ensures ValueHeld(f, w, b, 0, cell) == HeldAt(w, b, cell)
  {
  }

  lemma FlowFrom(j: SoundJob, c: BlockId, b: BlockId, cell: Value)
    requires Reachable(CfgOf(j.f), c) && HasEdge(CfgOf(j.f), c, b) && cell in j.w.cells && Wanted(j.f, b, 0, cell)
    ensures c in j.f.blocks && FlowsIn(j.f, j.w, c, b, cell) && Wanted(j.f, c, |j.f.blocks[c]|, cell)
  {
    hide Sound, WellFormed, Wanted, FlowsIn;
    JobFacts(j);
    ReachableIsBlock(j.f, c);
    WantedAcross(j.f, c, b, cell);
  }

  // What stands for a wanted cell in front of the first instruction of a block, unless it is a phi inserted for it.
  lemma {:induction false} HeldEntryDefined(j: SoundJob, p: seq<BlockId>, b: BlockId, cell: Value, y: nat)
    requires IsPath(CfgOf(j.f), p, b) && b in j.f.blocks && cell in j.w.cells && Wanted(j.f, b, 0, cell)
    requires HeldAt(j.w, b, cell) == Some(Def(y)) && MergedAt(j.w, b, cell).None?
    ensures p != [] && OnPath(j.at, j.w, p[..|p| - 1], y) && y !in j.w.subst
    decreases |p|, 0
  {
    hide Wanted, Sound, WellFormed, ValueHeld, Located, IsHome, NewIn;
    JobFacts(j);
    assert |p| == 1 ==> StartsEmpty(j.f, j.w, cell);
    if |p| == 1 {
      assert false;
    }
    var q, c := p[..|p| - 1], p[|p| - 2];
    assert HasEdge(CfgOf(j.f), p[|p| - 2], p[|p| - 2 + 1]);
    PathPrefix(CfgOf(j.f), p, b, |p| - 2);
    FlowFrom(j, c, b, cell);
    HeldDefined(j, q, c, |j.f.blocks[c]|, cell, y);
    if OnPath(j.at, j.w, q[..|q| - 1], y) {
      var d :| d in q[..|q| - 1] && IsHome(j.at, j.w, y, d);
      assert d in q;
    } else {
      assert c in q;
    }
  }

  // A path that comes to its last block only once.
  lemma SimplePath(g: Digraph, b: BlockId) returns (p: seq<BlockId>)
    requires Reachable(g, b)
    ensures IsPath(g, p, b) && b !in p[..|p| - 1]
  {
    var q :| IsPath(g, q, b);
    var i := FirstVisit(q, b);
    PathPrefix(g, q, b, i);
    p := q[..i + 1];
    assert p[..|p| - 1] == q[..i];
  }

  /** What stands for a wanted cell is available. */
  lemma HeldAvail(j: SoundJob, b: BlockId, k: nat, cell: Value, y: nat)
    requires Reachable(CfgOf(j.f), b) && b in j.f.blocks && k <= |j.f.blocks[b]|
    requires cell in j.w.cells && Wanted(j.f, b, k, cell) && ValueHeld(j.f, j.w, b, k, cell) == Some(Def(y))
    ensures ValidFunction(j.f) && (y in j.at ==> Avail(j.f, j.at, y, b, k)) && y !in j.w.subst
    ensures forall d :: NewIn(j.w, y, d) ==> Dom(CfgOf(j.f), d, b)
  {
    hide Wanted, Sound, WellFormed, ValueHeld, Located, NewIn;
    JobFacts(j);
    var simple := SimplePath(CfgOf(j.f), b);
    HeldDefined(j, simple, b, k, cell, y);
    if y in j.at {
      var d := j.at[y].block;
      if d != b {
        forall p | IsPath(CfgOf(j.f), p, b)
          ensures d in p
        {
          HeldDefined(j, p, b, k, cell, y);
        }
      }
    }
    forall d, p | NewIn(j.w, y, d) && IsPath(CfgOf(j.f), p, b)
      ensures d in p
    {
      NewIsHome(j, y, d);
      HeldDefined(j, p, b, k, cell, y);
      HomeIsNew(j, p, y, d, k);
    }
  }

  lemma HomeIsNew(j: SoundJob, p: seq<BlockId>, y: nat, d: BlockId, k: nat)
    requires p != [] && NewIn(j.w, y, d) && y !in j.at && DefinedOn(j.f, j.at, j.w, p, k, y)
    ensures d in p
  {
    hide WellFormed, CellsFlow, JustifiedUse, LoadServed;
    JobFacts(j);
    if OnPath(j.at, j.w, p[..|p| - 1], y) {
      var e :| e in p[..|p| - 1] && IsHome(j.at, j.w, y, e);
      assert e in p;
    }
  }

  /** Entering a block does not redefine what stands for a wanted cell there, unless that is a phi inserted for it. */
  lemma HeldOutside(j: SoundJob, b: BlockId, cell: Value, y: nat)
    requires Reachable(CfgOf(j.f), b) && b in j.f.blocks && cell in j.w.cells && Wanted(j.f, b, 0, cell)
    requires HeldAt(j.w, b, cell) == Some(Def(y)) && MergedAt(j.w, b, cell).None?
    ensures !IsHome(j.at, j.w, y, b) && y !in j.w.subst
  {
    hide Wanted, Sound, WellFormed, Located, NewIn, IsHome;
    JobFacts(j);
    var p := SimplePath(CfgOf(j.f), b);
    HeldEntryDefined(j, p, b, cell, y);
    var d :| d in p[..|p| - 1] && IsHome(j.at, j.w, y, d);
    if IsHome(j.at, j.w, y, b) {
      HomeUnique(j, y, b, d);
    }
  }

  lemma HomeUnique(j: SoundJob, y: nat, b: BlockId, d: BlockId)
    requires IsHome(j.at, j.w, y, b) && IsHome(j.at, j.w, y, d)
    ensures b == d
  {
    hide WellFormed, CellsFlow, JustifiedUse, LoadServed;
    JobFacts(j);
  }

  // The source of a replacement has been defined where the replaced result is.
  lemma ReplacementSource(j: SoundJob, x: nat, y: nat)
    requires x in j.w.subst && x in j.at && Reachable(CfgOf(j.f), j.at[x].block) && j.w.subst[x] == Def(y)
    ensures ValidFunction(j.f) && (y in j.at ==> SourceAvail(j.f, j.at, y, j.at[x]))
    ensures forall d :: NewIn(j.w, y, d) ==> Dom(CfgOf(j.f), d, j.at[x].block) && !IsPhi(j.f, j.at[x])
  {
    hide Wanted, Sound, WellFormed, ValueHeld, Located, NewIn;
    JobFacts(j);
    DefinedHere(j.f, j.at, x);
    var p := j.at[x];
    if InstAt(j.f, p).LoadInst? {
      LoadReplacement(j, x);
      HeldAvail(j, p.block, p.index, InstAt(j.f, p).ptr, y);
    } else {
      OtherReplacement(j, x);
      forall d | NewIn(j.w, y, d)
        ensures false
      {
        NewIsHome(j, y, d);
      }
    }
  }

  // ---- What holds along a run

  // The states of a run of the function and of the rewritten one.
  ghost predicate Matches(at: Places, w: Plan, st: State, st': State) {
    && (forall x {:trigger x in st.env} :: x in st.env ==>
          x in at && (x in w.subst || (x in st'.env && st'.env[x] == st.env[x])))
    && (forall c {:trigger Lookup(st.cells, c)} {:trigger Lookup(st'.cells, c)} :: c !in w.cells ==>
         Lookup(st.cells, c) == Lookup(st'.cells, c))
    && st.mem == st'.mem
  }

  // Every available replaced result equals its replacement.
  ghost predicate CopiesHold(f: Function, at: Places, w: Plan, c: BlockId, k: nat, st: State, st': State)
    requires ValidFunction(f) && Located(f, at)
  {
    forall x {:trigger x in w.subst} :: x in w.subst && Avail(f, at, x, c, k) && x in st.env ==>
      Eval(w.subst[x], st'.env) == Some(st.env[x])
  }

  // What stands for a cell is what it holds.
  ghost predicate CellHolds(v: Option<Value>, cell: Value, st: State, st': State) {
    cell in st.cells ==> v.Some? && Eval(v.value, st'.env) == Some(st.cells[cell])
  }

  ghost predicate CellsHold(f: Function, w: Plan, c: BlockId, k: nat, st: State, st': State)
    requires ValidFunction(f) && c in f.blocks && k <= |f.blocks[c]|
  {
    forall cell {:trigger Wanted(f, c, k, cell)} :: cell in w.cells && Wanted(f, c, k, cell) ==>
      CellHolds(ValueHeld(f, w, c, k, cell), cell, st, st')
  }

  ghost predicate Context(j: SoundJob, c: BlockId, k: nat, st: State, st': State) {
    && c in j.f.blocks && k <= |j.f.blocks[c]| && Reachable(CfgOf(j.f), c) && Matches(j.at, j.w, st, st')
    && CopiesHold(j.f, j.at, j.w, c, k, st, st') && CellsHold(j.f, j.w, c, k, st, st')
  }

  lemma InContext(j: SoundJob, c: BlockId, k: nat, st: State, st': State)
    requires Context(j, c, k, st, st')
    ensures c in j.f.blocks && k <= |j.f.blocks[c]| && Reachable(CfgOf(j.f), c) && Matches(j.at, j.w, st, st')
    ensures WellFormed(j.f, j.at) && CopiesHold(j.f, j.at, j.w, c, k, st, st')
  {
  }

  // An operand and its replacement have the same value.
  lemma MatchedOperand(j: SoundJob, c: BlockId, k: nat, st: State, st': State, v: Value)
    requires Context(j, c, k, st, st')
    requires v.Def? ==> Avail(j.f, j.at, v.id, c, k)
    ensures Eval(v, st.env).Some? ==> Eval(Apply(j.w.subst, v), st'.env) == Eval(v, st.env)
  {
    hide Sound, CellsHold, OperandsAvail, IncomingAvail;
    var f, at, w := j.f, j.at, j.w;
  }

  // ---- One instruction

  // An instruction changes at most the environment entry of its own result.
  lemma ExecFrame(i: Inst, st: State, x: nat)
    requires ExecInst(i, st).Fell? && !(DefinesValue(i) && !i.PhiInst? && i.id == x)
    ensures Lookup(ExecInst(i, st).st.env, x) == Lookup(st.env, x)
  {
  }

  // What the rewritten function does for an instruction.
  function ExecRewritten(w: Plan, i: Inst, st: State): Outcome {
    if Drops(w, i) then Fell(st) else ExecInst(RenameInst(w.subst, i), st)
  }

  lemma RewrittenFrame(w: Plan, i: Inst, st: State, x: nat)
    requires ExecRewritten(w, i, st).Fell? && !(DefinesValue(i) && !i.PhiInst? && i.id == x)
    ensures Lookup(ExecRewritten(w, i, st).st.env, x) == Lookup(st.env, x)
  {
    if !Drops(w, i) {
      ExecFrame(RenameInst(w.subst, i), st, x);
    }
  }

  // A step of both functions that goes on.
  ghost predicate Stepping(j: SoundJob, c: BlockId, k: nat, st: State, st': State, st1: State, st1': State) {
    Context(j, c, k, st, st') && k < |j.f.blocks[c]| && ExecInst(j.f.blocks[c][k], st) == Fell(st1)
      && ExecRewritten(j.w, j.f.blocks[c][k], st') == Fell(st1')
  }

  lemma SteppingFacts(j: SoundJob, c: BlockId, k: nat, st: State, st': State, st1: State, st1': State)
    requires Stepping(j, c, k, st, st', st1, st1')
    ensures c in j.f.blocks && k < |j.f.blocks[c]| && Reachable(CfgOf(j.f), c) && Context(j, c, k, st, st')
    ensures ExecInst(j.f.blocks[c][k], st) == Fell(st1) && ExecRewritten(j.w, j.f.blocks[c][k], st') == Fell(st1')
    ensures WellFormed(j.f, j.at) && CopiesHold(j.f, j.at, j.w, c, k, st, st') && CellsHold(j.f, j.w, c, k, st, st')
  {
    hide CopiesHold, CellsHold, Matches, ExecInst, ExecRewritten, Sound;
  }

  // Only the instruction that defines a result changes it.
  lemma ResultKept(j: SoundJob, c: BlockId, k: nat, st: State, st': State, st1: State, st1': State, y: nat)
    requires Stepping(j, c, k, st, st', st1, st1')
    requires y in j.at ==> j.at[y] != Pos(c, k) || IsPhi(j.f, j.at[y])
    ensures Lookup(st1.env, y) == Lookup(st.env, y) && Lookup(st1'.env, y) == Lookup(st'.env, y)
  {
    hide Context, Sound, OperandsAvail, IncomingAvail, ExecInst, ExecRewritten;
    SteppingFacts(j, c, k, st, st', st1, st1');
    var i := InstAt(j.f, Pos(c, k));
    ExecFrame(i, st, y);
    RewrittenFrame(j.w, i, st', y);
  }

  // A value other than such a result stays what it is.
  lemma ValueKept(j: SoundJob, c: BlockId, k: nat, st: State, st': State, st1: State, st1': State, v: Value)
    requires Stepping(j, c, k, st, st', st1, st1')
    requires v.Def? && v.id in j.at ==> j.at[v.id] != Pos(c, k) || IsPhi(j.f, j.at[v.id])
    ensures Eval(v, st1'.env) == Eval(v, st'.env)
  {
    hide Stepping;
    if v.Def? {
      ResultKept(j, c, k, st, st', st1, st1', v.id);
    }
  }

  // A folded instruction computes its replacement.
  lemma NewConstantHolds(j: SoundJob, c: BlockId, k: nat, st: State, st': State, st1: State, st1': State, x: nat)
    requires Stepping(j, c, k, st, st', st1, st1')
    requires x in j.w.subst && j.at[x] == Pos(c, k) && Justified(j.f, j.w, Pos(c, k))
    requires var i := j.f.blocks[c][k]; (i.BinaryInst? || i.CompareInst?) && i.id == x
    ensures Eval(j.w.subst[x], st1'.env) == Some(st1.env[x])
  {
    hide IncomingAvail, CopiesHold, CellsHold, Matches, Avail, EvalBinary, EvalCompare, ExecRewritten, Sound,
      ValueHeld, Located;
    SteppingFacts(j, c, k, st, st', st1, st1');
    var i := InstAt(j.f, Pos(c, k));
    assert OperandsAvail(j.f, j.at, Pos(c, k));
    assert i.lhs in Operands(i) && i.rhs in Operands(i);
    MatchedOperand(j, c, k, st, st', i.lhs);
    MatchedOperand(j, c, k, st, st', i.rhs);
  }

  // A promoted load yields what stands for its cell.
  lemma NewLoadHolds(j: SoundJob, c: BlockId, k: nat, st: State, st': State, st1: State, st1': State, x: nat)
    requires Stepping(j, c, k, st, st', st1, st1')
    requires x in j.w.subst && x in j.at && j.at[x] == Pos(c, k) && j.f.blocks[c][k].LoadInst?
    requires j.f.blocks[c][k].id == x && x in st1.env
    ensures Eval(j.w.subst[x], st1'.env) == Some(st1.env[x])
  {
    hide Stepping, WellFormed, Wanted, ValueHeld, CopiesHold, Context, ExecRewritten, CellsFlow, PhisNew, JustifiedUse,
      LoadServed;
    SteppingFacts(j, c, k, st, st', st1, st1');
    LoadReplacement(j, x);
    var i := j.f.blocks[c][k];
    assert CellHolds(ValueHeld(j.f, j.w, c, k, i.ptr), i.ptr, st, st');
    ResolvedReplacement(j, x);
    if j.w.subst[x].Def? && j.w.subst[x].id in j.at && j.at[j.w.subst[x].id] == Pos(c, k) {
      HereUnique(j, x, j.w.subst[x].id);
    }
    ValueKept(j, c, k, st, st', st1, st1', j.w.subst[x]);
  }

  lemma ResolvedReplacement(j: SoundJob, x: nat)
    requires x in j.w.subst
    ensures j.w.subst[x].Def? ==> j.w.subst[x].id !in j.w.subst
    ensures forall c :: c in j.w.cells ==> c.Alloc?
  {
    hide WellFormed, CellsFlow, PhisNew, JustifiedUse, LoadServed;
  }

  lemma HereUnique(j: SoundJob, x: nat, y: nat)
    requires x in j.at && y in j.at && j.at[x] == j.at[y]
    ensures x == y
  {
    hide Sound, OperandsAvail, IncomingAvail;
    DefinedHere(j.f, j.at, x);
    DefinedHere(j.f, j.at, y);
  }

  lemma NewCopyHolds(j: SoundJob, c: BlockId, k: nat, st: State, st': State, st1: State, st1': State, x: nat)
    requires Stepping(j, c, k, st, st', st1, st1')
    requires x in j.w.subst && x in j.at && j.at[x] == Pos(c, k) && !IsPhi(j.f, j.at[x]) && x in st1.env
    ensures Eval(j.w.subst[x], st1'.env) == Some(st1.env[x])
  {
    hide ExecInst, Stepping, Context, Source, OperandsAvail, IncomingAvail, ExecRewritten, CopiesHold, CellsHold,
      LoadServed, CellsFlow, PhisNew;
    SteppingFacts(j, c, k, st, st', st1, st1');
    assert JustifiedUse(j.f, j.at, j.w, x);
    var i := InstAt(j.f, Pos(c, k));
    DefinedHere(j.f, j.at, x);
    if i.BinaryInst? || i.CompareInst? {
      NewConstantHolds(j, c, k, st, st', st1, st1', x);
    } else {
      NewLoadHolds(j, c, k, st, st', st1, st1', x);
    }
  }

  // An available replacement is not computed anew.
  lemma ReplacementFixed(j: SoundJob, c: BlockId, k: nat, x: nat)
    requires x in j.w.subst && c in j.f.blocks && k < |j.f.blocks[c]| && Reachable(CfgOf(j.f), c)
    requires ValidFunction(j.f) && Avail(j.f, j.at, x, c, k) && j.w.subst[x].Def? && j.w.subst[x].id in j.at
    ensures j.at[j.w.subst[x].id] != Pos(c, k) || IsPhi(j.f, Pos(c, k))
  {
    hide Sound, WellFormed;
    DefinerReachable(j.f, j.at, x, c, k);
    ReplacementSource(j, x, j.w.subst[x].id);
    SourceNotRedefined(j.f, j.at, j.w.subst[x].id, j.at[x], c, k);
  }

  lemma OldCopyHolds(j: SoundJob, c: BlockId, k: nat, st: State, st': State, st1: State, st1': State, x: nat)
    requires Stepping(j, c, k, st, st', st1, st1')
    requires x in j.w.subst && x in j.at && Avail(j.f, j.at, x, c, k + 1)
    requires j.at[x] != Pos(c, k) || IsPhi(j.f, j.at[x])
    requires x in st1.env
    ensures Eval(j.w.subst[x], st1'.env) == Some(st1.env[x])
  {
    hide Stepping, Sound, Context, ExecInst, ExecRewritten, CellsHold, OperandsAvail, IncomingAvail, Dom;
    SteppingFacts(j, c, k, st, st', st1, st1');
    assert Avail(j.f, j.at, x, c, k);
    ResultKept(j, c, k, st, st', st1, st1', x);
    if j.w.subst[x].Def? && j.w.subst[x].id in j.at {
      ReplacementFixed(j, c, k, x);
    }
    ValueKept(j, c, k, st, st', st1, st1', j.w.subst[x]);
  }

  lemma CopiesStep(j: SoundJob, c: BlockId, k: nat, st: State, st': State, st1: State, st1': State)
    requires Stepping(j, c, k, st, st', st1, st1')
    ensures CopiesHold(j.f, j.at, j.w, c, k + 1, st1, st1')
  {
    hide Stepping, Sound, WellFormed, Avail;
    JobFacts(j);
    forall x | x in j.w.subst && Avail(j.f, j.at, x, c, k + 1) && x in st1.env
      ensures Eval(j.w.subst[x], st1'.env) == Some(st1.env[x])
    {
      if j.at[x] == Pos(c, k) && !IsPhi(j.f, j.at[x]) {
        NewCopyHolds(j, c, k, st, st', st1, st1', x);
      } else {
        OldCopyHolds(j, c, k, st, st', st1, st1', x);
      }
    }
  }

  lemma CellKept(i: Inst, st: State, st1: State, cell: Value)
    requires ExecInst(i, st) == Fell(st1) && !StoresTo(i, cell)
    ensures Lookup(st1.cells, cell) == Lookup(st.cells, cell)
  {
    hide Write64, Read64;
  }

  // What stands for a cell is not computed anew.
  lemma HeldFixed(j: SoundJob, c: BlockId, k: nat, cell: Value, y: nat)
    requires c in j.f.blocks && k < |j.f.blocks[c]| && Reachable(CfgOf(j.f), c)
    requires cell in j.w.cells && Wanted(j.f, c, k, cell) && ValueHeld(j.f, j.w, c, k, cell) == Some(Def(y))
    ensures y in j.at ==> j.at[y] != Pos(c, k) || IsPhi(j.f, Pos(c, k))
  {
    hide Sound, WellFormed, Wanted, ValueHeld;
    HeldAvail(j, c, k, cell, y);
  }

  lemma OldCellHolds(j: SoundJob, c: BlockId, k: nat, st: State, st': State, st1: State, st1': State, cell: Value)
    requires Stepping(j, c, k, st, st', st1, st1') && cell in j.w.cells && Wanted(j.f, c, k + 1, cell)
    requires !StoresTo(j.f.blocks[c][k], cell)
    ensures CellHolds(ValueHeld(j.f, j.w, c, k + 1, cell), cell, st1, st1')
  {
    hide Stepping, Sound, Context, ExecInst, ExecRewritten, WellFormed, Wanted, ValueHeld, CopiesHold;
    SteppingFacts(j, c, k, st, st', st1, st1');
    JobFacts(j);
    WantedBefore(j.f, c, k, cell);
    HeldNext(j.f, j.w, c, k, cell);
    CellKept(j.f.blocks[c][k], st, st1, cell);
    var v := ValueHeld(j.f, j.w, c, k, cell);
    assert CellHolds(v, cell, st, st');
    if v.Some? {
      if v.value.Def? {
        HeldFixed(j, c, k, cell, v.value.id);
      }
      ValueKept(j, c, k, st, st', st1, st1', v.value);
    }
  }

  lemma NewCellHolds(j: SoundJob, c: BlockId, k: nat, st: State, st': State, st1: State, st1': State, cell: Value)
    requires Stepping(j, c, k, st, st', st1, st1') && cell in j.w.cells && StoresTo(j.f.blocks[c][k], cell)
    ensures CellHolds(ValueHeld(j.f, j.w, c, k + 1, cell), cell, st1, st1')
  {
    hide Stepping, Sound, Context, WellFormed, ValueHeld, CopiesHold, CellsHold, Avail;
    SteppingFacts(j, c, k, st, st', st1, st1');
    HeldNext(j.f, j.w, c, k, cell);
    var i := j.f.blocks[c][k];
    assert i.val in Operands(i);
    if i.val.Def? {
      OperandAvail(j, c, k, i.val);
    }
    MatchedOperand(j, c, k, st, st', i.val);
    assert cell.Alloc? by {
      CellsAreAllocs(j, cell);
    }
  }

  lemma CellsAreAllocs(j: SoundJob, cell: Value)
    requires cell in j.w.cells
    ensures cell.Alloc?
  {
    hide WellFormed, CellsFlow, PhisNew, JustifiedUse, LoadServed, Resolved;
  }

  lemma CellsStep(j: SoundJob, c: BlockId, k: nat, st: State, st': State, st1: State, st1': State)
    requires Stepping(j, c, k, st, st', st1, st1')
    ensures c in j.f.blocks && k < |j.f.blocks[c]| && CellsHold(j.f, j.w, c, k + 1, st1, st1')
  {
    hide Stepping, Sound, Context, WellFormed, Wanted, ValueHeld, CopiesHold, CellHolds;
    SteppingFacts(j, c, k, st, st', st1, st1');
    JobFacts(j);
    forall cell | cell in j.w.cells && Wanted(j.f, c, k + 1, cell)
      ensures CellHolds(ValueHeld(j.f, j.w, c, k + 1, cell), cell, st1, st1')
    {
      if StoresTo(j.f.blocks[c][k], cell) {
        NewCellHolds(j, c, k, st, st', st1, st1', cell);
      } else {
        OldCellHolds(j, c, k, st, st', st1, st1', cell);
      }
    }
  }

  // ---- The two functions in lock step

  lemma DroppedStep(j: SoundJob, c: BlockId, k: nat, st: State, st': State)
    requires Context(j, c, k, st, st') && k < |j.f.blocks[c]|
    requires Drops(j.w, j.f.blocks[c][k]) && !ExecInst(j.f.blocks[c][k], st).Stuck?
    ensures ExecInst(j.f.blocks[c][k], st).Fell? && Matches(j.at, j.w, ExecInst(j.f.blocks[c][k], st).st, st')
  {
    hide CellsHold, CopiesHold, Resolved, CellsFlow, PhisNew, LoadServed, OperandsAvail, IncomingAvail, ExecInst,
      Matches, Source, ValueHeld, Avail;
    InContext(j, c, k, st, st');
    var f, at, w := j.f, j.at, j.w;
    var i := InstAt(f, Pos(c, k));
    if DefinesValue(i) {
      assert i.id in at && at[i.id] == Pos(c, k);
      assert JustifiedUse(f, at, w, i.id);
    }
    DroppedMatches(at, w, i, st, st');
  }

  lemma DroppedMatches(at: Places, w: Plan, i: Inst, st: State, st': State)
    requires Matches(at, w, st, st') && Drops(w, i) && !ExecInst(i, st).Stuck? && forall c :: c in w.cells ==> c.Alloc?
    requires DefinesValue(i) ==> !i.LoadInst? && i.id in w.subst && i.id in at
    ensures ExecInst(i, st).Fell? && Matches(at, w, ExecInst(i, st).st, st')
  {
    hide EvalBinary, EvalCompare, Read64, Write64;
  }

  // What a kept instruction and its renamed form do in matching states.
  ghost predicate SameOutcome(at: Places, w: Plan, o: Outcome, o': Outcome) {
    match o
    case Fell(st) => o'.Fell? && Matches(at, w, st, o'.st)
    case Jump(d, st) => o'.Jump? && o'.dst == d && Matches(at, w, st, o'.st)
    case Return(v, st) => o'.Return? && o'.word == v && Matches(at, w, st, o'.st)
    case Stuck => true
  }

  // A promoted load that is not replaced finds nothing.
  lemma UnservedLoad(j: SoundJob, c: BlockId, k: nat, st: State, st': State)
    requires Context(j, c, k, st, st') && k < |j.f.blocks[c]|
    requires var i := j.f.blocks[c][k]; i.LoadInst? && i.ptr in j.w.cells && i.id !in j.w.subst
    ensures j.f.blocks[c][k].ptr !in st.cells
  {
    hide WellFormed, CopiesHold, Resolved, CellsFlow, PhisNew, JustifiedUse, ValueHeld, Wanted, Matches;
    var i := InstAt(j.f, Pos(c, k));
    JobFacts(j);
    WantedHere(j.f, c, k, i.ptr);
    assert LoadServed(j.f, j.w, Pos(c, k));
    assert CellHolds(ValueHeld(j.f, j.w, c, k, i.ptr), i.ptr, st, st');
  }

  lemma KeptStep(j: SoundJob, c: BlockId, k: nat, st: State, st': State)
    requires Context(j, c, k, st, st') && k < |j.f.blocks[c]|
    requires !Drops(j.w, j.f.blocks[c][k])
    ensures SameOutcome(j.at, j.w, ExecInst(j.f.blocks[c][k], st),
        ExecInst(RenameInst(j.w.subst, j.f.blocks[c][k]), st'))
  {
    hide CellsHold, CopiesHold, Resolved, CellsFlow, PhisNew, LoadServed, IncomingAvail, ExecInst, Context, Avail;
    var f, at, w := j.f, j.at, j.w;
    InContext(j, c, k, st, st');
    var i := InstAt(f, Pos(c, k));
    assert OperandsAvail(f, at, Pos(c, k));
    forall v | v in Operands(i)
      ensures Eval(v, st.env).Some? ==> Eval(Apply(w.subst, v), st'.env) == Eval(v, st.env)
    {
      MatchedOperand(j, c, k, st, st', v);
    }
    if DefinesValue(i) {
      assert i.id in at && at[i.id] == Pos(c, k);
      if i.id in w.subst {
        assert JustifiedUse(f, at, w, i.id);
      }
      if i.LoadInst? && i.ptr in w.cells && i.id !in w.subst {
        UnservedLoad(j, c, k, st, st');
      }
      KeptDefinition(at, w, i, st, st');
    } else {
      KeptEffect(w, at, i, st, st');
    }
  }

  lemma KeptLoad(at: Places, w: Plan, i: Inst, st: State, st': State)
    requires Matches(at, w, st, st') && i.LoadInst? && i.id in at
    requires Eval(i.ptr, st.env).Some? ==> Eval(Apply(w.subst, i.ptr), st'.env) == Eval(i.ptr, st.env)
    requires i.id in w.subst ==> i.ptr in w.cells
    requires forall c :: c in w.cells ==> c.Alloc?
    requires i.ptr in w.cells ==> i.id in w.subst || i.ptr !in st.cells
    ensures SameOutcome(at, w, ExecInst(i, st), ExecInst(RenameInst(w.subst, i), st'))
  {
    hide Read64, Write64;
  }

  lemma KeptDefinition(at: Places, w: Plan, i: Inst, st: State, st': State)
    requires Matches(at, w, st, st') && DefinesValue(i) && i.id in at
    requires forall v :: v in Operands(i) && Eval(v, st.env).Some? ==>
        Eval(Apply(w.subst, v), st'.env) == Eval(v, st.env)
    requires i.id in w.subst ==> i.LoadInst? && i.ptr in w.cells
    requires forall c :: c in w.cells ==> c.Alloc?
    requires i.LoadInst? && i.ptr in w.cells ==> i.id in w.subst || i.ptr !in st.cells
    ensures SameOutcome(at, w, ExecInst(i, st), ExecInst(RenameInst(w.subst, i), st'))
  {
    hide EvalBinary, EvalCompare, Read64, Write64;
    if i.LoadInst? {
      assert i.ptr in Operands(i);
      KeptLoad(at, w, i, st, st');
    } else if !i.PhiInst? {
      assert i.lhs in Operands(i) && i.rhs in Operands(i);
    }
  }

  lemma KeptStoreEffect(w: Plan, at: Places, i: Inst, st: State, st': State)
    requires Matches(at, w, st, st') && i.StoreInst? && !Drops(w, i)
    requires Eval(i.ptr, st.env).Some? ==> Eval(Apply(w.subst, i.ptr), st'.env) == Eval(i.ptr, st.env)
    requires Eval(i.val, st.env).Some? ==> Eval(Apply(w.subst, i.val), st'.env) == Eval(i.val, st.env)
    ensures SameOutcome(at, w, ExecInst(i, st), ExecInst(RenameInst(w.subst, i), st'))
  {
    hide Read64, Write64;
    var o, o' := ExecInst(i, st), ExecInst(RenameInst(w.subst, i), st');
    if o.Fell? {
      forall c | c !in w.cells
        ensures Lookup(o.st.cells, c) == Lookup(o'.st.cells, c)
      {
        assert Lookup(st.cells, c) == Lookup(st'.cells, c);
      }
    }
  }

  lemma KeptEffect(w: Plan, at: Places, i: Inst, st: State, st': State)
    requires Matches(at, w, st, st') && !DefinesValue(i) && !Drops(w, i)
    requires forall v :: v in Operands(i) && Eval(v, st.env).Some? ==>
        Eval(Apply(w.subst, v), st'.env) == Eval(v, st.env)
    ensures SameOutcome(at, w, ExecInst(i, st), ExecInst(RenameInst(w.subst, i), st'))
  {
    hide Matches, Read64, Write64;
    if i.StoreInst? {
      assert i.ptr in Operands(i) && i.val in Operands(i);
      KeptStoreEffect(w, at, i, st, st');
    } else if i.RetInst? {
      assert i.retVal in Operands(i);
    } else if i.CondBranchInst? {
      assert i.cond in Operands(i);
    }
  }

  // What holds after instruction k, however it leaves the block.
  ghost predicate HoldsAfter(j: SoundJob, c: BlockId, k: nat, o: Outcome, o': Outcome) {
    && SameOutcome(j.at, j.w, o, o')
    && match o
       case Fell(st) => Context(j, c, k, st, o'.st)
       case Jump(d, st) =>
         HasEdge(CfgOf(j.f), c, d) && d in j.f.blocks && c in j.f.blocks && Context(j, c, |j.f.blocks[c]|, st, o'.st)
       case Return(_, _) => true
       case Stuck => true
  }

  lemma JumpTerminates(i: Inst, st: State)
    requires ExecInst(i, st).Jump?
    ensures IsTerminator(i)
  {
  }

  lemma JumpIsEdge(f: Function, at: Places, c: BlockId, k: nat, st: State, d: BlockId, st1: State)
    requires WellFormed(f, at) && c in f.blocks && k < |f.blocks[c]|
    requires ExecInst(f.blocks[c][k], st) == Jump(d, st1)
    ensures HasEdge(CfgOf(f), c, d) && d in f.blocks && st1 == st && k == |f.blocks[c]| - 1
  {
    hide IncomingAvail, OperandsAvail, Located, Reachable, PhisCover;
    var i := f.blocks[c][k];
    assert i == InstAt(f, Pos(c, k)) && IsTerminator(i);
    assert d in InstTargets(i);
    CfgEdges(f, c, d);
  }

  lemma SameStep(j: SoundJob, c: BlockId, k: nat, st: State, st': State)
    requires Context(j, c, k, st, st') && k < |j.f.blocks[c]|
    ensures SameOutcome(j.at, j.w, ExecInst(j.f.blocks[c][k], st), ExecRewritten(j.w, j.f.blocks[c][k], st'))
  {
    hide Context, ExecInst, Matches, RenameInst;
    InContext(j, c, k, st, st');
    if Drops(j.w, j.f.blocks[c][k]) {
      if !ExecInst(j.f.blocks[c][k], st).Stuck? {
        DroppedStep(j, c, k, st, st');
      }
    } else {
      KeptStep(j, c, k, st, st');
    }
  }

  lemma HeadSim(j: SoundJob, c: BlockId, k: nat, st: State, st': State)
    requires Context(j, c, k, st, st') && k < |j.f.blocks[c]|
    ensures HoldsAfter(j, c, k + 1, ExecInst(j.f.blocks[c][k], st), ExecRewritten(j.w, j.f.blocks[c][k], st'))
  {
    hide ExecInst, ExecRewritten, CopiesHold, CellsHold, Matches, Sound;
    var i := j.f.blocks[c][k];
    var o, o' := ExecInst(i, st), ExecRewritten(j.w, i, st');
    SameStep(j, c, k, st, st');
    if o.Fell? {
      assert Stepping(j, c, k, st, st', o.st, o'.st);
      CopiesStep(j, c, k, st, st', o.st, o'.st);
      CellsStep(j, c, k, st, st', o.st, o'.st);
    } else if o.Jump? {
      JumpIsEdge(j.f, j.at, c, k, st, o.dst, o.st);
      JumpTerminates(i, st);
      AtTerminator(j, c, k, st, st');
      RewrittenJump(j.w, i, st');
    }
  }

  lemma RewrittenJump(w: Plan, i: Inst, st: State)
    requires IsTerminator(i)
    ensures ExecRewritten(w, i, st).Jump? ==> ExecRewritten(w, i, st).st == st
  {
  }

  // The rest of a block from instruction k on, and its rewritten form.
  lemma {:induction false} BlockSim(j: SoundJob, c: BlockId, k: nat, st: State, st': State)
    requires Context(j, c, k, st, st')
    ensures HoldsAfter(j, c, |j.f.blocks[c]|, ExecInsts(j.f.blocks[c][k..], st),
        ExecInsts(RewriteBlock(j.w, j.f.blocks[c][k..]), st'))
    decreases |j.f.blocks[c]| - k
  {
    hide Context, ExecInst, ExecRewritten, Matches, RewriteBlock, CfgOf;
    InContext(j, c, k, st, st');
    var rest := j.f.blocks[c][k..];
    if k < |j.f.blocks[c]| {
      var i := j.f.blocks[c][k];
      assert rest[0] == i && rest[1..] == j.f.blocks[c][k + 1..];
      HeadSim(j, c, k, st, st');
      RewriteHead(j.w, rest, st');
      var o := ExecInst(i, st);
      if o.Fell? {
        BlockSim(j, c, k + 1, o.st, ExecRewritten(j.w, i, st').st);
      }
    } else {
      RewriteNone(j.w, st');
    }
  }

  lemma RewriteNone(w: Plan, st: State)
    ensures ExecInsts(RewriteBlock(w, []), st) == Fell(st)
  {
  }

  lemma RewriteHead(w: Plan, b: Block, st: State)
    requires |b| > 0
    ensures ExecInsts(RewriteBlock(w, b), st) ==
      var o := ExecRewritten(w, b[0], st); if o.Fell? then ExecInsts(RewriteBlock(w, b[1..]), o.st) else o
  {
    if Drops(w, b[0]) {
      assert RewriteBlock(w, b) == RewriteBlock(w, b[1..]);
    } else {
      assert RewriteBlock(w, b)[1..] == RewriteBlock(w, b[1..]);
    }
  }

  // A terminator computes nothing, so what holds before it holds at the end of its block.
  lemma NotAtTerminator(f: Function, at: Places, x: nat, c: BlockId, k: nat)
    requires ValidFunction(f) && Located(f, at) && Avail(f, at, x, c, k + 1)
    requires c in f.blocks && k < |f.blocks[c]| && IsTerminator(f.blocks[c][k])
    ensures Avail(f, at, x, c, k)
  {
    assert DefinesAt(f, x, at[x]);
    assert InstAt(f, Pos(c, k)) == f.blocks[c][k];
    if at[x].block == c && at[x].index == k {
      assert at[x] == Pos(c, k);
    }
  }

  lemma AtTerminator(j: SoundJob, c: BlockId, k: nat, st: State, st': State)
    requires Context(j, c, k, st, st') && k == |j.f.blocks[c]| - 1 && IsTerminator(j.f.blocks[c][k])
    ensures Context(j, c, |j.f.blocks[c]|, st, st')
  {
    hide Matches, Avail, Sound, WellFormed, ValueHeld, Wanted, CellHolds;
    JobFacts(j);
    forall x | x in j.w.subst && Avail(j.f, j.at, x, c, k + 1) && x in st.env
      ensures Eval(j.w.subst[x], st'.env) == Some(st.env[x])
    {
      NotAtTerminator(j.f, j.at, x, c, k);
    }
    forall cell | cell in j.w.cells && Wanted(j.f, c, k + 1, cell)
      ensures CellHolds(ValueHeld(j.f, j.w, c, k + 1, cell), cell, st, st')
    {
      WantedBefore(j.f, c, k, cell);
      HeldNext(j.f, j.w, c, k, cell);
    }
  }

  // ---- Entering a block

  // A phi of the block entered.
  lemma PhiOnEntry(f: Function, at: Places, d: BlockId, x: nat)
    requires WellFormed(f, at) && d in f.blocks
    ensures FindPhi(f.blocks[d], x).Some? <==> x in at && at[x].block == d && IsPhi(f, at[x])
    ensures FindPhi(f.blocks[d], x).Some? ==> InstAt(f, at[x]) == PhiInst(x, FindPhi(f.blocks[d], x).value)
  {
    FindPhiSome(f.blocks[d], x);
    if FindPhi(f.blocks[d], x).Some? {
      var k :| 0 <= k < |f.blocks[d]| && f.blocks[d][k] == PhiInst(x, FindPhi(f.blocks[d], x).value);
      assert InstAt(f, Pos(d, k)).PhiInst?;
    }
    if x in at && at[x].block == d && IsPhi(f, at[x]) {
      assert f.blocks[d][at[x].index].PhiInst?;
    }
  }

  lemma {:induction false} FindPhiAppend(a: Block, b: Block, x: nat)
    ensures FindPhi(a + b, x) == if FindPhi(a, x).Some? then FindPhi(a, x) else FindPhi(b, x)
  {
    if a == [] {
      assert a + b == b;
    } else {
      assert (a + b)[1..] == a[1..] + b;
      FindPhiAppend(a[1..], b, x);
    }
  }

  lemma {:induction false} PhisFall(a: Block, b: Block, st: State)
    requires forall k :: 0 <= k < |a| ==> a[k].PhiInst?
    ensures ExecInsts(a + b, st) == ExecInsts(b, st)
  {
    if a == [] {
      assert a + b == b;
    } else {
      assert (a + b)[1..] == a[1..] + b;
      PhisFall(a[1..], b, st);
    }
  }

  function RenameIncoming(s: Subst, incoming: map<BlockId, Value>): map<BlockId, Value> {
    map b | b in incoming :: Apply(s, incoming[b])
  }

  lemma {:induction false} FindPhiRewritten(w: Plan, b: Block, x: nat)
    requires x !in w.dropped
    ensures FindPhi(RewriteBlock(w, b), x)
         == (if FindPhi(b, x).Some? then Some(RenameIncoming(w.subst, FindPhi(b, x).value)) else None)
  {
    if b != [] {
      FindPhiRewritten(w, b[1..], x);
      if Drops(w, b[0]) {
        assert RewriteBlock(w, b) == RewriteBlock(w, b[1..]);
      } else {
        assert RewriteBlock(w, b)[1..] == RewriteBlock(w, b[1..]);
      }
    }
  }

  // The phis that a block of the rewritten function starts with.
  lemma PhisRewritten(j: SoundJob, d: BlockId, x: nat)
    requires d in j.f.blocks && x !in j.w.subst
    ensures d in Rewritten(j.f, j.w).blocks
    ensures FindPhi(Rewritten(j.f, j.w).blocks[d], x) ==
      if NewIn(j.w, x, d) then FindPhi(NewPhis(j.w, d), x)
      else if FindPhi(j.f.blocks[d], x).Some? then Some(RenameIncoming(j.w.subst, FindPhi(j.f.blocks[d], x).value))
      else None
  {
    hide WellFormed, CellsFlow, PhisNew, LoadServed, JustifiedUse, Resolved, RewriteBlock;
    FindPhiAppend(NewPhis(j.w, d), RewriteBlock(j.w, j.f.blocks[d]), x);
    FindPhiRewritten(j.w, j.f.blocks[d], x);
  }

  // Control goes from the end of c to d in both functions.
  ghost predicate Entering(j: SoundJob, c: BlockId, d: BlockId, st: State, st': State, st1: State, st1': State) {
    && c in j.f.blocks && d in j.f.blocks && HasEdge(CfgOf(j.f), c, d) && Context(j, c, |j.f.blocks[c]|, st, st')
    && st1 == st.(env := EnterEnv(j.f.blocks[d], c, st.env))
    && st1' == st'.(env := EnterEnv(Rewritten(j.f, j.w).blocks[d], c, st'.env))
  }

  lemma EnteringFacts(j: SoundJob, c: BlockId, d: BlockId, st: State, st': State, st1: State, st1': State)
    requires Entering(j, c, d, st, st', st1, st1')
    ensures c in j.f.blocks && d in j.f.blocks && HasEdge(CfgOf(j.f), c, d) && Context(j, c, |j.f.blocks[c]|, st, st')
    ensures Reachable(CfgOf(j.f), c) && Reachable(CfgOf(j.f), d) && Matches(j.at, j.w, st, st')
    ensures CopiesHold(j.f, j.at, j.w, c, |j.f.blocks[c]|, st, st')
    ensures CellsHold(j.f, j.w, c, |j.f.blocks[c]|, st, st')
    ensures st1.cells == st.cells && st1'.cells == st'.cells && st1.mem == st.mem && st1'.mem == st'.mem
    ensures forall x :: Lookup(st1.env, x) == EntryValue(j.f.blocks[d], c, st.env, x)
    ensures d in Rewritten(j.f, j.w).blocks
    ensures forall x :: Lookup(st1'.env, x) == EntryValue(Rewritten(j.f, j.w).blocks[d], c, st'.env, x)
  {
    hide CopiesHold, CellsHold, Matches, EnterEnv, RewriteBlock, Sound;
    ReachableStep(CfgOf(j.f), c, d);
    forall x
      ensures Lookup(st1.env, x) == EntryValue(j.f.blocks[d], c, st.env, x)
      ensures Lookup(st1'.env, x) == EntryValue(Rewritten(j.f, j.w).blocks[d], c, st'.env, x)
    {
      EnterLookup(j.f.blocks[d], c, st.env, x);
      EnterLookup(Rewritten(j.f, j.w).blocks[d], c, st'.env, x);
    }
  }

  // A value that is not that of a phi of the block stays what it is.
  lemma EnteredValue(j: SoundJob, c: BlockId, d: BlockId, st: State, st': State, st1: State, st1': State, v: Value)
    requires Entering(j, c, d, st, st', st1, st1')
    requires v.Def? ==> v.id !in j.w.subst && !NewIn(j.w, v.id, d) && FindPhi(j.f.blocks[d], v.id) == None
    ensures Eval(v, st1'.env) == Eval(v, st'.env)
  {
    hide Entering, Rewritten, FindPhi, CopiesHold, CellsHold, Context, Matches;
    EnteringFacts(j, c, d, st, st', st1, st1');
    if v.Def? {
      PhisRewritten(j, d, v.id);
      assert Lookup(st1'.env, v.id) == EntryValue(Rewritten(j.f, j.w).blocks[d], c, st'.env, v.id);
    }
  }

  // The result of a phi takes its value from the predecessor.
  lemma PhiTakes(j: SoundJob, c: BlockId, d: BlockId, st: State, st': State, st1: State, st1': State, x: nat)
    requires Entering(j, c, d, st, st', st1, st1') && FindPhi(j.f.blocks[d], x).Some? && x in st1.env
    ensures var incoming := FindPhi(j.f.blocks[d], x).value;
      c in incoming && Eval(Apply(j.w.subst, incoming[c]), st'.env) == Some(st1.env[x])
  {
    hide Sound, Context, OperandsAvail, Located, CopiesHold, CellsHold, Entering, FindPhi, Rewritten, Avail, Matches;
    EnteringFacts(j, c, d, st, st', st1, st1');
    JobFacts(j);
    PhiOnEntry(j.f, j.at, d, x);
    assert Lookup(st1.env, x) == EntryValue(j.f.blocks[d], c, st.env, x);
    var incoming := FindPhi(j.f.blocks[d], x).value;
    assert IncomingAvail(j.f, j.at, j.at[x]);
    if incoming[c].Def? {
      IncomingOf(j.f, j.at, j.at[x], c);
    }
    MatchedOperand(j, c, |j.f.blocks[c]|, st, st', incoming[c]);
  }

  // A replaced phi takes the value of its single incoming edge.
  lemma PhiCopyEnters(j: SoundJob, c: BlockId, d: BlockId, st: State, st': State, st1: State, st1': State, x: nat)
    requires Entering(j, c, d, st, st', st1, st1')
    requires x in j.w.subst && x in j.at && j.at[x].block == d && IsPhi(j.f, j.at[x]) && x in st1.env
    ensures Eval(j.w.subst[x], st1'.env) == Some(st1.env[x])
  {
    hide Entering, Context, CopiesHold, CellsHold, Resolved, CellsFlow, PhisNew, LoadServed, OperandsAvail,
      IncomingAvail, FindPhi, Matches, Rewritten, Located;
    EnteringFacts(j, c, d, st, st', st1, st1');
    PhiOnEntry(j.f, j.at, d, x);
    PhiTakes(j, c, d, st, st', st1, st1', x);
    assert JustifiedUse(j.f, j.at, j.w, x);
    if j.w.subst[x].Def? {
      PhiReplacement(j, d, x);
    }
    EnteredValue(j, c, d, st, st', st1, st1', j.w.subst[x]);
  }

  lemma PhiReplacement(j: SoundJob, d: BlockId, x: nat)
    requires x in j.w.subst && x in j.at && j.at[x].block == d && IsPhi(j.f, j.at[x]) && j.w.subst[x].Def?
    requires Reachable(CfgOf(j.f), d) && d in j.f.blocks
    ensures var y := j.w.subst[x].id; y !in j.w.subst && !NewIn(j.w, y, d) && FindPhi(j.f.blocks[d], y) == None
  {
    hide Sound, FindPhi, Located, OperandsAvail, IncomingAvail, NewIn;
    var y := j.w.subst[x].id;
    ResolvedReplacement(j, x);
    ReplacementSource(j, x, y);
    PhiOnEntry(j.f, j.at, d, y);
    OtherReplacement(j, x);
  }

  // Neither an original phi of d nor one of its new ones is what replaces a result that is available there.
  lemma ReplacementOutside(j: SoundJob, d: BlockId, x: nat)
    requires ValidFunction(j.f) && x in j.w.subst && x in j.at && Avail(j.f, j.at, x, d, 0) && j.at[x].block != d
    requires Reachable(CfgOf(j.f), d) && d in j.f.blocks && j.w.subst[x].Def?
    ensures var y := j.w.subst[x].id; y !in j.w.subst && !NewIn(j.w, y, d) && FindPhi(j.f.blocks[d], y) == None
  {
    hide Sound, FindPhi, Located, OperandsAvail, IncomingAvail, NewIn;
    var y := j.w.subst[x].id;
    ResolvedReplacement(j, x);
    DefinerReachable(j.f, j.at, x, d, 0);
    ReplacementSource(j, x, y);
    if y in j.at {
      SourceNotRedefined(j.f, j.at, y, j.at[x], d, 0);
    }
    PhiOnEntry(j.f, j.at, d, y);
    if NewIn(j.w, y, d) {
      DomAntisym(CfgOf(j.f), d, j.at[x].block);
    }
  }

  lemma CopiesEnter(j: SoundJob, c: BlockId, d: BlockId, st: State, st': State, st1: State, st1': State)
    requires Entering(j, c, d, st, st', st1, st1')
    ensures CopiesHold(j.f, j.at, j.w, d, 0, st1, st1')
  {
    hide Entering, Context, Sound, OperandsAvail, IncomingAvail, CellsHold, FindPhi, Rewritten, Matches, Dom;
    EnteringFacts(j, c, d, st, st', st1, st1');
    JobFacts(j);
    forall x | x in j.w.subst && Avail(j.f, j.at, x, d, 0) && x in st1.env
      ensures Eval(j.w.subst[x], st1'.env) == Some(st1.env[x])
    {
      if j.at[x].block == d {
        PhiCopyEnters(j, c, d, st, st', st1, st1', x);
      } else {
        PhiOnEntry(j.f, j.at, d, x);
        assert Lookup(st1.env, x) == EntryValue(j.f.blocks[d], c, st.env, x);
        DomPred(CfgOf(j.f), j.at[x].block, c, d);
        assert Avail(j.f, j.at, x, c, |j.f.blocks[c]|) by {
          WithinBlock(j, x);
        }
        if j.w.subst[x].Def? {
          ReplacementOutside(j, d, x);
        }
        EnteredValue(j, c, d, st, st', st1, st1', j.w.subst[x]);
      }
    }
  }

  lemma WithinBlock(j: SoundJob, x: nat)
    requires x in j.at
    ensures Within(j.f, j.at[x])
  {
    hide Sound, OperandsAvail, IncomingAvail;
    DefinedHere(j.f, j.at, x);
  }

  // An inserted phi takes what stood for its cell.
  lemma NewPhiEnters(j: SoundJob, c: BlockId, d: BlockId, st: State, st': State, st1: State, st1': State, y: nat)
    requires Entering(j, c, d, st, st', st1, st1') && NewIn(j.w, y, d)
    ensures Eval(Def(y), st1'.env) ==
      var v := Lookup(FindPhi(NewPhis(j.w, d), y).value, c); if v.Some? then Eval(v.value, st'.env) else None
  {
    hide Entering, Context, CopiesHold, CellsHold, FindPhi, Matches, Rewritten, Sound;
    EnteringFacts(j, c, d, st, st', st1, st1');
    NewIsHome(j, y, d);
    JobFacts(j);
    PhisRewritten(j, d, y);
    assert Lookup(st1'.env, y) == EntryValue(Rewritten(j.f, j.w).blocks[d], c, st'.env, y);
  }

  lemma CellEnters(j: SoundJob, c: BlockId, d: BlockId, st: State, st': State, st1: State, st1': State, cell: Value)
    requires Entering(j, c, d, st, st', st1, st1') && cell in j.w.cells && Wanted(j.f, d, 0, cell)
    ensures CellHolds(HeldAt(j.w, d, cell), cell, st1, st1')
  {
    hide Entering, Context, CopiesHold, FindPhi, Matches, Rewritten, Sound, Wanted, ValueHeld, WellFormed, NewPhis;
    EnteringFacts(j, c, d, st, st', st1, st1');
    FlowFrom(j, c, d, cell);
    assert CellHolds(ValueHeld(j.f, j.w, c, |j.f.blocks[c]|, cell), cell, st, st');
    var v := HeldAt(j.w, d, cell);
    if MergedAt(j.w, d, cell).Some? {
      NewPhiEnters(j, c, d, st, st', st1, st1', v.value.id);
    } else if v.Some? {
      if v.value.Def? {
        HeldEntry(j, d, cell, v.value.id);
      }
      EnteredValue(j, c, d, st, st', st1, st1', v.value);
    }
  }

  lemma HeldEntry(j: SoundJob, d: BlockId, cell: Value, y: nat)
    requires Reachable(CfgOf(j.f), d) && d in j.f.blocks && cell in j.w.cells && Wanted(j.f, d, 0, cell)
    requires HeldAt(j.w, d, cell) == Some(Def(y)) && MergedAt(j.w, d, cell).None?
    ensures y !in j.w.subst && !NewIn(j.w, y, d) && FindPhi(j.f.blocks[d], y) == None
  {
    hide Sound, Wanted, FindPhi, NewPhis, HeldAt, Located, OperandsAvail, IncomingAvail;
    JobFacts(j);
    HeldOutside(j, d, cell, y);
    PhiOnEntry(j.f, j.at, d, y);
    if NewIn(j.w, y, d) {
      NewIsHome(j, y, d);
    }
  }

  lemma CellsEnter(j: SoundJob, c: BlockId, d: BlockId, st: State, st': State, st1: State, st1': State)
    requires Entering(j, c, d, st, st', st1, st1')
    ensures d in j.f.blocks && CellsHold(j.f, j.w, d, 0, st1, st1')
  {
    hide Entering, Context, CopiesHold, CellHolds, Matches, Rewritten, Sound, Wanted, ValueHeld;
    EnteringFacts(j, c, d, st, st', st1, st1');
    forall cell | cell in j.w.cells && Wanted(j.f, d, 0, cell)
      ensures CellHolds(ValueHeld(j.f, j.w, d, 0, cell), cell, st1, st1')
    {
      HeldFirst(j.f, j.w, d, cell);
      CellEnters(j, c, d, st, st', st1, st1', cell);
    }
  }

  lemma ResultEnters(j: SoundJob, c: BlockId, d: BlockId, st: State, st': State, st1: State, st1': State, x: nat)
    requires Entering(j, c, d, st, st', st1, st1') && x in st1.env
    ensures x in j.at && (x in j.w.subst || (x in st1'.env && st1'.env[x] == st1.env[x]))
  {
    hide Entering, Context, CopiesHold, CellsHold, FindPhi, Rewritten, Sound;
    EnteringFacts(j, c, d, st, st', st1, st1');
    JobFacts(j);
    PhiOnEntry(j.f, j.at, d, x);
    assert Lookup(st1.env, x) == EntryValue(j.f.blocks[d], c, st.env, x);
    if x !in j.w.subst {
      PhisRewritten(j, d, x);
      assert Lookup(st1'.env, x) == EntryValue(Rewritten(j.f, j.w).blocks[d], c, st'.env, x);
      if NewIn(j.w, x, d) {
        NewIsHome(j, x, d);
      }
      if FindPhi(j.f.blocks[d], x).Some? {
        PhiTakes(j, c, d, st, st', st1, st1', x);
      }
    }
  }

  lemma EnterSim(j: SoundJob, c: BlockId, d: BlockId, st: State, st': State, st1: State, st1': State)
    requires Entering(j, c, d, st, st', st1, st1')
    ensures Context(j, d, 0, st1, st1')
  {
    hide Entering, CopiesHold, CellsHold, Rewritten, Sound, EntryValue;
    EnteringFacts(j, c, d, st, st', st1, st1');
    CopiesEnter(j, c, d, st, st', st1, st1');
    CellsEnter(j, c, d, st, st', st1, st1');
    forall x | x in st1.env
      ensures x in j.at && (x in j.w.subst || (x in st1'.env && st1'.env[x] == st1.env[x]))
    {
      ResultEnters(j, c, d, st, st', st1, st1', x);
    }
  }

  // ---- Whole runs

  // Where control has come to, every replaced result that is available has the value of its replacement.
  ghost predicate RunsAgree(j: SoundJob, o: Outcome, o': Outcome) {
    SameOutcome(j.at, j.w, o, o') && (o.Jump? ==> Context(j, o.dst, 0, o.st, o'.st))
  }

  lemma PhisArePhis(j: SoundJob, c: BlockId)
    ensures forall k :: 0 <= k < |NewPhis(j.w, c)| ==> NewPhis(j.w, c)[k].PhiInst?
  {
    hide WellFormed, CellsFlow, LoadServed, JustifiedUse, Resolved;
  }

  lemma StepSim(j: SoundJob, c: BlockId, st: State, st': State)
    requires c in j.f.blocks && Context(j, c, 0, st, st')
    ensures RunsAgree(j, StepBlock(j.f, c, st), StepBlock(Rewritten(j.f, j.w), c, st'))
  {
    hide Context, RewriteBlock, EnterEnv, Matches, Sound, NewPhis, CfgOf;
    var b := j.f.blocks[c];
    assert b[0..] == b;
    BlockSim(j, c, 0, st, st');
    PhisArePhis(j, c);
    PhisFall(NewPhis(j.w, c), RewriteBlock(j.w, b), st');
    var e, e' := ExecInsts(b, st), ExecInsts(RewriteBlock(j.w, b), st');
    if e.Jump? {
      var st1 := e.st.(env := EnterEnv(j.f.blocks[e.dst], c, e.st.env));
      var st1' := e'.st.(env := EnterEnv(Rewritten(j.f, j.w).blocks[e.dst], c, e'.st.env));
      EnterSim(j, c, e.dst, e.st, e'.st, st1, st1');
      InContext(j, e.dst, 0, st1, st1');
    }
  }

  lemma {:induction false} RunSim(j: SoundJob, o: Outcome, o': Outcome, n: nat)
    requires RunsAgree(j, o, o')
    ensures RunsAgree(j, Run(j.f, o, n), Run(Rewritten(j.f, j.w), o', n))
    decreases n
  {
    hide StepBlock, Rewritten, Context, Matches;
    if n > 0 && o.Jump? {
      InContext(j, o.dst, 0, o.st, o'.st);
      StepSim(j, o.dst, o.st, o'.st);
      RunSim(j, StepBlock(j.f, o.dst, o.st), StepBlock(Rewritten(j.f, j.w), o'.dst, o'.st), n - 1);
    }
  }

  /** A promoted cell that may be loaded before anything is stored to it holds nothing at first. */
  ghost predicate StartsClear(f: Function, cells: set<Value>, st: State)
    requires ValidFunction(f)
  {
    forall c :: c in cells && c in st.cells ==> !Wanted(f, Entry(f), 0, c)
  }

  // In every run, what was replaced has the value of its replacement in the rewritten function.
  ghost predicate CopiesHoldAt(f: Function, at: Places, w: Plan, o: Outcome, o': Outcome)
    requires ValidFunction(f) && Located(f, at)
  {
    o.Jump? && o'.Jump? ==> o.dst in f.blocks && CopiesHold(f, at, w, o.dst, 0, o.st, o'.st)
  }

  /** Carrying out a sound plan keeps every run: the same blocks in the same order, the same
      returned word, the same memory and the same cells apart from the promoted ones; and what was replaced has
      the value of its replacement. */
  lemma SoundPlanKeepsRuns(f: Function, at: Places, w: Plan, st: State, n: nat)
    requires WellFormed(f, at) && Sound(f, at, w) && StartsClear(f, w.cells, st)
    ensures SameOutcome(at, w, RunFunction(f, st, n), RunFunction(Rewritten(f, w), st, n))
    ensures CopiesHoldAt(f, at, w, RunFunction(f, st, n), RunFunction(Rewritten(f, w), st, n))
  {
    hide Matches, Wanted, RewriteBlock, Run;
    var j: SoundJob := Job(f, at, w);
    var start := st.(env := map[]);
    StartsInContext(j, start);
    RunSim(j, Jump(Entry(f), start), Jump(Entry(f), start), n);
    var o, o' := RunFunction(f, st, n), RunFunction(Rewritten(f, w), st, n);
    if o.Jump? {
      InContext(j, o.dst, 0, o.st, o'.st);
    }
  }

  lemma StartsInContext(j: SoundJob, st: State)
    requires st.env == map[] && StartsClear(j.f, j.w.cells, st)
    ensures |j.f.order| > 0 && Context(j, Entry(j.f), 0, st, st)
  {
    hide Sound, Wanted, ValueHeld, Located, OperandsAvail, IncomingAvail;
    JobFacts(j);
    EntryReachable(CfgOf(j.f));
    ReachableIsBlock(j.f, Entry(j.f));
  }
}

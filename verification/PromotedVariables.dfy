/** What promoting variables makes of a function, and when that keeps its meaning. */
module PromotedVariables {
  import opened Words
  import opened Graph
  import opened Dominance
  import opened Ir
  import opened Ssa
  import opened Rewrite
  import opened FunctionObject
  import opened PushedValues
  import opened TreeWalk
  import DC = DominanceComputer
  import DT = DominatorTree
  import F = Frontiers

  // ---- Variables

  predicate IsVar(vars: set<nat>, v: Value) {
    v.Alloc? && v.id in vars
  }

  predicate IsVarStore(vars: set<nat>, i: Inst) {
    i.StoreInst? && i.ptr.Alloc? && i.ptr.id in vars
  }

  predicate IsVarLoad(vars: set<nat>, i: Inst) {
    i.LoadInst? && i.ptr.Alloc? && i.ptr.id in vars
  }

  // No store uses the variable.
  ghost predicate Dead(f: Function, a: nat) {
    forall p {:trigger InstAt(f, p)} :: IsUser(f, Alloc(a), p) ==> !InstAt(f, p).StoreInst?
  }

  // The address of the variable is not stored anywhere but through it.
  ghost predicate Promotable(f: Function, a: nat) {
    forall p {:trigger InstAt(f, p)} :: IsUser(f, Alloc(a), p) && InstAt(f, p).StoreInst? ==>
      InstAt(f, p).ptr == Alloc(a)
  }

  ghost predicate HasAlloc(f: Function, a: nat) {
    exists p {:trigger InstAt(f, p)} :: Within(f, p) && InstAt(f, p) == AllocInst(a)
  }

  ghost predicate AreVars(f: Function, vars: set<nat>) {
    forall a :: a in vars <==> HasAlloc(f, a) && !Dead(f, a) && Promotable(f, a)
  }

  function CellsOf(vars: set<nat>): set<Value> {
    set a | a in vars :: Alloc(a)
  }

  // ---- What a run of the pass works on

  // The variables, and the order in which the walk takes the blocks; ids from base on are not in use.
  datatype Setup = Setup(f: Function, at: Places, vars: set<nat>, base: nat, index: DC.Index, doms: DC.Parents,
                         order: seq<BlockId>)

  // No variable is stored its own address, or that of another one.
  ghost predicate NoneStored(f: Function, vars: set<nat>) {
    forall p {:trigger InstAt(f, p)} :: Within(f, p) && InstAt(f, p).StoreInst? ==> !IsVar(vars, InstAt(f, p).val)
  }

  ghost predicate IsSetup(u: Setup) {
    && ValidFunction(u.f) && Preorder(CfgOf(u.f), u.order)
    && DT.ExactParents(CfgOf(u.f), u.doms) && DC.Climbs(CfgOf(u.f).entry, u.index, u.doms)
    && (u.vars != {} ==> WellFormed(u.f, u.at) && NoneStored(u.f, u.vars) && forall x :: x in u.at ==> x < u.base)
  }

  type Promotion = u: Setup | IsSetup(u) ghost witness TrivialSetup()

  ghost function TrivialSetup(): (u: Setup)
    ensures IsSetup(u)
  {
    hide Preorder, WellFormed, NoneStored, DT.ExactParents, DC.Climbs, ValidFunction;
    var f := ReturnZero();
    TrivialFlow(f);
    TrivialTree(f);
    Setup(f, map[], {}, 0, map[0 := 0], map[0 := 0], [0])
  }

  lemma TrivialFlow(f: Function)
    requires f == ReturnZero()
    ensures ValidFunction(f) && CfgOf(f) == Digraph(0, [])
  {
  }

  lemma TrivialTree(f: Function)
    requires ValidFunction(f) && CfgOf(f) == Digraph(0, [])
    ensures DT.ExactParents(CfgOf(f), map[0 := 0]) && Preorder(CfgOf(f), [0])
    ensures DC.Climbs(CfgOf(f).entry, map[0 := 0], map[0 := 0])
  {
    EntryReachable(CfgOf(f));
    forall v | Reachable(CfgOf(f), v)
      ensures v == 0
    {
      var p :| IsPath(CfgOf(f), p, v);
      if |p| > 1 {
        var edge := HasEdge(CfgOf(f), p[0], p[0 + 1]);
      }
    }
  }

  ghost predicate VarLoadAt(u: Setup, x: nat) {
    x in u.at && Within(u.f, u.at[x]) && IsVarLoad(u.vars, InstAt(u.f, u.at[x]))
  }

  ghost predicate VarStoreAt(u: Setup, q: Pos) {
    Within(u.f, q) && IsVarStore(u.vars, InstAt(u.f, q))
  }

  // A phi for a variable stands where the dominance of one of its stores ends.
  ghost predicate PhiAllowed(u: Setup, a: nat, b: BlockId) {
    ValidFunction(u.f)
      && exists q {:trigger VarStoreAt(u, q)} ::
        VarStoreAt(u, q) && InstAt(u.f, q).ptr == Alloc(a) && CanRun(u.f, q.block)
        && F.InFrontier(CfgOf(u.f), q.block, b)
  }

  // ---- The sites of what is pushed

  // A store, or the phi for the variable in front of a block.
  datatype Site = StoreSite(q: Pos) | PhiSite(b: BlockId)

  function LastStore(b: Block, cell: Value): (m: Option<nat>)
    ensures m.Some? ==> m.value < |b| && StoresTo(b[m.value], cell)
  {
    if b == [] then None
    else if StoresTo(b[|b| - 1], cell) then Some(|b| - 1)
    else LastStore(b[..|b| - 1], cell)
  }

  // What block b pushes for the variable last before it has come to the end of a part of its own instructions.
  ghost function SiteIn(u: Setup, b: BlockId, part: Block, a: nat): Option<Site> {
    var m := LastStore(part, Alloc(a));
    if m.Some? then Some(StoreSite(Pos(b, m.value)))
    else if PhiAllowed(u, a, b) then Some(PhiSite(b))
    else None
  }

  // The same for a walk that has been through some blocks before.
  ghost function SiteAt(u: Setup, front: seq<BlockId>, b: BlockId, part: Block, a: nat): Option<Site>
    decreases |front|, 1
  {
    var here := SiteIn(u, b, part, a);
    if here.Some? then here else SiteAfter(u, front, a)
  }

  /** The site of what is pushed last for the variable when the walk has been through the blocks: the latest of them
      that stores to it or has a phi for it decides. */
  ghost function SiteAfter(u: Setup, front: seq<BlockId>, a: nat): Option<Site>
    decreases |front|, 0
  {
    if front == [] then None
    else var b := front[|front| - 1]; SiteAt(u, front[..|front| - 1], b, BlockOf(u.f, b), a)
  }

  /** The functions for which the walk is right: wherever a variable is still to be loaded and has no phi, the walk
      enters the block with the site on top that it has on top when it leaves each predecessor. */
  ghost predicate Served(u: Setup) {
    ValidFunction(u.f)
      && forall i, j, a {:trigger SiteAfter(u, u.order[..i + 1], a), SiteAfter(u, u.order[..j], a)} ::
        0 <= i < |u.order| && 0 <= j < |u.order| && a in u.vars && IsEdge(u.f, u.order[i], u.order[j])
        && Wanted(u.f, u.order[j], 0, Alloc(a)) && !PhiAllowed(u, a, u.order[j]) ==>
         SiteAfter(u, u.order[..i + 1], a) == SiteAfter(u, u.order[..j], a)
  }

  // ---- What it means for a walk to be right

  /** What is on top when the walk enters a block is what comes last on every path to it. */
  ghost predicate LastOnPaths(u: Setup) {
    ValidFunction(u.f)
      && forall p, j, a {:trigger SiteAfter(u, p[..|p| - 1], a), u.order[j]} ::
        0 <= j < |u.order| && a in u.vars && IsPath(CfgOf(u.f), p, u.order[j])
        && Wanted(u.f, u.order[j], 0, Alloc(a)) && !PhiAllowed(u, a, u.order[j]) ==>
         SiteAfter(u, p[..|p| - 1], a) == SiteAfter(u, u.order[..j], a)
  }

  lemma {:induction false} NoLastStore(b: Block, cell: Value, k: nat)
    requires LastStore(b, cell).None? && k < |b|
    ensures !StoresTo(b[k], cell)
    decreases |b|
  {
    if k < |b| - 1 {
      NoLastStore(b[..|b| - 1], cell, k);
    }
  }

  // A block without a store passes the want on.
  lemma {:induction false} WantedThrough(f: Function, b: BlockId, k: nat, cell: Value)
    requires ValidFunction(f) && b in f.blocks && k <= |f.blocks[b]| && LastStore(f.blocks[b], cell).None?
    requires Wanted(f, b, |f.blocks[b]|, cell)
    ensures Wanted(f, b, k, cell)
    decreases |f.blocks[b]| - k
  {
    hide ValidFunction, Wanted;
    if k < |f.blocks[b]| {
      WantedThrough(f, b, k + 1, cell);
      NoLastStore(f.blocks[b], cell, k);
      WantedBefore(f, b, k, cell);
    }
  }

  // If a block pushes nothing for a variable that is wanted behind it, the variable is wanted in front of it.
  lemma PassedOn(u: Promotion, i: nat, d: BlockId, a: nat)
    requires i < |u.order| && IsEdge(u.f, u.order[i], d) && ValidFunction(u.f) && Wanted(u.f, d, 0, Alloc(a))
    requires SiteIn(u, u.order[i], BlockOf(u.f, u.order[i]), a).None?
    ensures Wanted(u.f, u.order[i], 0, Alloc(a)) && !PhiAllowed(u, a, u.order[i])
  {
    hide IsSetup, Wanted, PhiAllowed, ValidFunction;
    OrderInside(u);
    WantedAcross(u.f, u.order[i], d, Alloc(a));
    WantedThrough(u.f, u.order[i], 0, Alloc(a));
  }

  // Through a block a path and the walk come to the same site if they have the same in front of it.
  lemma SameThrough(u: Setup, p: seq<BlockId>, q: seq<BlockId>, a: nat)
    requires p != [] && q != [] && p[|p| - 1] == q[|q| - 1]
    requires var b := p[|p| - 1];
      SiteIn(u, b, BlockOf(u.f, b), a).None? ==> SiteAfter(u, p[..|p| - 1], a) == SiteAfter(u, q[..|q| - 1], a)
    ensures SiteAfter(u, p, a) == SiteAfter(u, q, a)
  {
    hide SiteIn;
  }

  lemma {:induction false} ServedOnPath(u: Promotion, p: seq<BlockId>, j: nat, a: nat)
    requires Served(u) && j < |u.order| && a in u.vars && IsPath(CfgOf(u.f), p, u.order[j])
    requires Wanted(u.f, u.order[j], 0, Alloc(a)) && !PhiAllowed(u, a, u.order[j])
    ensures SiteAfter(u, p[..|p| - 1], a) == SiteAfter(u, u.order[..j], a)
    decreases |p|
  {
    hide IsSetup, Wanted, PhiAllowed, SiteIn, CanRun, HasEdge, ValidFunction, SiteAfter, IsEdge, NoDup;
    OrderInside(u);
    HasGraph(u);
    if |p| == 1 {
      assert p[..0] == [] == u.order[..0] && u.order[j] == u.order[0];
      FirstOnly(u.order, j);
      return;
    }
    var q, c := p[..|p| - 1], p[|p| - 2];
    assert HasEdge(CfgOf(u.f), p[|p| - 2], p[|p| - 2 + 1]);
    PathPrefix(CfgOf(u.f), p, u.order[j], |p| - 2);
    assert IsPath(CfgOf(u.f), q, c);
    InOrderAt(u, c);
    var i :| 0 <= i < |u.order| && u.order[i] == c;
    EdgeIs(u, c, u.order[j]);
    assert u.order[..i + 1][..i] == u.order[..i];
    if SiteIn(u, c, BlockOf(u.f, c), a).None? {
      PassedOn(u, i, u.order[j], a);
      ServedOnPath(u, q, i, a);
    }
    SameThrough(u, q, u.order[..i + 1], a);
    assert SiteAfter(u, u.order[..i + 1], a) == SiteAfter(u, u.order[..j], a);
  }

  lemma FirstOnly(order: seq<BlockId>, j: nat)
    requires NoDup(order) && j < |order| && order[j] == order[0]
    ensures j == 0
  {
  }

  lemma InOrderAt(u: Promotion, c: BlockId)
    requires ValidFunction(u.f) && Reachable(CfgOf(u.f), c)
    ensures c in u.order
  {
    hide WellFormed, NoneStored, DT.ExactParents, DC.Climbs, ValidFunction, Reachable;
  }

  lemma PathsServe(u: Promotion, i: nat, j: nat, a: nat)
    requires LastOnPaths(u) && i < |u.order| && j < |u.order| && a in u.vars && IsEdge(u.f, u.order[i], u.order[j])
    requires Wanted(u.f, u.order[j], 0, Alloc(a)) && !PhiAllowed(u, a, u.order[j])
    ensures SiteAfter(u, u.order[..i + 1], a) == SiteAfter(u, u.order[..j], a)
  {
    hide IsSetup, Wanted, PhiAllowed, SiteIn, SiteAfter, ValidFunction, CfgOf, HasEdge;
    OrderInside(u);
    HasGraph(u);
    assert CanRun(u.f, u.order[i]);
    var q :| IsPath(CfgOf(u.f), q, u.order[i]);
    var p := q + [u.order[j]];
    assert IsPath(CfgOf(u.f), p, u.order[j]) && p[..|p| - 1] == q;
    assert SiteAfter(u, p[..|p| - 1], a) == SiteAfter(u, u.order[..j], a);
    assert u.order[..i + 1][..i] == u.order[..i];
    if SiteIn(u, u.order[i], BlockOf(u.f, u.order[i]), a).None? {
      PassedOn(u, i, u.order[j], a);
      assert SiteAfter(u, q[..|q| - 1], a) == SiteAfter(u, u.order[..i], a);
    }
    SameThrough(u, q, u.order[..i + 1], a);
  }

  /** So the walk is right exactly if wherever a variable is still to be loaded, and has no phi, what the walk has on
      top comes last on every path there. */
  lemma ServedExactly(u: Promotion)
    ensures Served(u) <==> LastOnPaths(u)
  {
    hide IsSetup, Wanted, PhiAllowed, SiteAfter, ValidFunction, CfgOf, HasEdge, IsEdge;
    HasGraph(u);
    OrderInside(u);
    if Served(u) {
      forall p, j, a | 0 <= j < |u.order| && a in u.vars && IsPath(CfgOf(u.f), p, u.order[j])
        && Wanted(u.f, u.order[j], 0, Alloc(a)) && !PhiAllowed(u, a, u.order[j])
        ensures SiteAfter(u, p[..|p| - 1], a) == SiteAfter(u, u.order[..j], a)
      {
        ServedOnPath(u, p, j, a);
      }
    }
    if LastOnPaths(u) {
      forall i, j, a | 0 <= i < |u.order| && 0 <= j < |u.order| && a in u.vars && IsEdge(u.f, u.order[i], u.order[j])
        && Wanted(u.f, u.order[j], 0, Alloc(a)) && !PhiAllowed(u, a, u.order[j])
        ensures SiteAfter(u, u.order[..i + 1], a) == SiteAfter(u, u.order[..j], a)
      {
        PathsServe(u, i, j, a);
      }
    }
  }

  // ---- The value at a site

  function ValueOf(w: Flow, site: Option<Site>, a: nat): Option<Value> {
    match site
    case None => None
    case Some(StoreSite(q)) =>
      if Within(w.f, q) && InstAt(w.f, q).StoreInst? then Some(Apply(w.s, InstAt(w.f, q).val)) else None
    case Some(PhiSite(b)) =>
      var id := PhiFor(PhisAt(w.phis, b), w.phiVars, a); if id.Some? then Some(Def(id.value)) else None
  }

  // The phis stand where they are to.
  ghost predicate Placed(u: Setup, w: Flow) {
    w.f == u.f && forall b, a {:trigger PhiFor(PhisAt(w.phis, b), w.phiVars, a)} :: b in u.f.blocks && a in u.vars ==>
      (PhiFor(PhisAt(w.phis, b), w.phiVars, a).Some? <==> PhiAllowed(u, a, b))
  }

  lemma {:induction false} StoredAtLast(b: Block, cell: Value)
    ensures LastStored(b, cell)
         == if LastStore(b, cell).Some? then Some(b[LastStore(b, cell).value].val) else None
  {
    if b != [] {
      StoredAtLast(b[..|b| - 1], cell);
    }
  }

  predicate IsPrefix(part: Block, b: Block) {
    |part| <= |b| && part == b[..|part|]
  }

  lemma {:induction false} PushedAtSite(u: Setup, w: Flow, front: seq<BlockId>, b: BlockId, part: Block, a: nat)
    requires Placed(u, w) && a in u.vars && b in u.f.blocks && IsPrefix(part, u.f.blocks[b])
    requires forall c :: c in front ==> c in u.f.blocks
    ensures PushedWith(w, front, PhisAt(w.phis, b), part, a) == ValueOf(w, SiteAt(u, front, b, part, a), a)
    decreases |front|, 1
  {
    hide PhiAllowed;
    StoredAtLast(part, Alloc(a));
    PushedAfterSite(u, w, front, a);
    assert PhiFor(PhisAt(w.phis, b), w.phiVars, a).Some? <==> PhiAllowed(u, a, b);
  }

  /** What is pushed last is the value at that site. */
  lemma {:induction false} PushedAfterSite(u: Setup, w: Flow, front: seq<BlockId>, a: nat)
    requires Placed(u, w) && a in u.vars && forall c :: c in front ==> c in u.f.blocks
    ensures Pushed(w, front, a) == ValueOf(w, SiteAfter(u, front, a), a)
    decreases |front|, 0
  {
    hide PhiAllowed, PushedWith, SiteAt;
    if front != [] {
      var b := front[|front| - 1];
      assert u.f.blocks[b][..|u.f.blocks[b]|] == u.f.blocks[b];
      PushedAtSite(u, w, front[..|front| - 1], b, u.f.blocks[b], a);
    }
    assert ValueOf(w, None, a) == None;
  }

  // ---- The plan of a run

  predicate StandsFor(i: Inst, phiVars: map<nat, nat>, a: nat) {
    i.PhiInst? && i.id in phiVars && phiVars[i.id] == a
  }

  // How many phis of a block stand for the variable.
  function PhiCount(block: Block, phiVars: map<nat, nat>, a: nat): nat {
    if block == [] then 0
    else (if StandsFor(block[0], phiVars, a) then 1 else 0) + PhiCount(block[1..], phiVars, a)
  }

  // The blocks in front of b.
  function Before(order: seq<BlockId>, b: BlockId): seq<BlockId> {
    if order == [] || order[0] == b then [] else [order[0]] + Before(order[1..], b)
  }

  // What stands for the variables when the walk has been through some blocks.
  function HeldFrom(vars: set<nat>, x: Flow, front: seq<BlockId>): map<Value, Value> {
    map a | a in vars && Pushed(x, front, a).Some? :: Alloc(a) := Pushed(x, front, a).value
  }

  function MergedIn(vars: set<nat>, x: Flow, b: BlockId): map<Value, nat> {
    map a | a in vars && PhiFor(PhisAt(x.phis, b), x.phiVars, a).Some? ::
      Alloc(a) := PhiFor(PhisAt(x.phis, b), x.phiVars, a).value
  }

  // Results are replaced, the stores to the variables are removed, and phis are put in front of blocks.
  function PlanOf(u: Setup, s: Subst, phis: Phis, phiVars: map<nat, nat>): Plan {
    var x := Flow(u.f, s, phis, phiVars);
    Plan(s, {}, CellsOf(u.vars), phis, map b | b in u.order :: HeldFrom(u.vars, x, Before(u.order, b)),
      map b | b in u.order :: MergedIn(u.vars, x, b))
  }

  function FlowBy(u: Setup, w: Plan, phiVars: map<nat, nat>): Flow {
    Flow(u.f, w.subst, w.phis, phiVars)
  }

  // The load at instruction k of the n-th block is replaced by what has been pushed last there, if anything has.
  ghost predicate LoadTakes(u: Setup, x: Flow, n: nat, k: nat) {
    && n < |u.order| && k < |BlockOf(u.f, u.order[n])|
    && var i := BlockOf(u.f, u.order[n])[k];
      IsVarLoad(u.vars, i) ==>
        Lookup(x.s, i.id)
          == PushedWith(x, u.order[..n], PhisAt(x.phis, u.order[n]), BlockOf(u.f, u.order[n])[..k], i.ptr.id)
  }

  // An inserted phi stands for a variable, and from each block that leads to its own it has the value that was pushed
  // last for that when the walk left the block; it has no value where none had been pushed.
  ghost predicate PhiFilled(u: Setup, x: Flow, d: BlockId, i: Inst) {
    i.PhiInst? && i.id in x.phiVars && x.phiVars[i.id] in u.vars
      && forall b {:trigger Lookup(i.incoming, b)} ::
        Lookup(i.incoming, b) == Supplied(x, u.order, b, d, x.phiVars[i.id])
  }

  /** What a run leaves. In each block where the dominance of a store to a variable ends exactly one phi stands for the
      variable, and nowhere else one; each has the values pushed last, and so has every load in code that can be run. */
  ghost predicate Fills(u: Setup, w: Plan, phiVars: map<nat, nat>) {
    var x := FlowBy(u, w, phiVars);
    && (forall d, a {:trigger PhiCount(PhisAt(w.phis, d), phiVars, a)} :: d in u.f.blocks && a in u.vars ==>
          PhiCount(PhisAt(w.phis, d), phiVars, a) == if PhiAllowed(u, a, d) then 1 else 0)
    && (forall d, k {:trigger PhisAt(w.phis, d)[k]} :: d in u.f.blocks && 0 <= k < |PhisAt(w.phis, d)| ==>
          PhiFilled(u, x, d, PhisAt(w.phis, d)[k]))
    && (forall n: nat, k: nat {:trigger LoadTakes(u, x, n, k)} ::
          n < |u.order| && k < |BlockOf(u.f, u.order[n])| ==> LoadTakes(u, x, n, k))
    && forall z {:trigger z in w.subst} :: z in w.subst ==> VarLoadAt(u, z) && u.at[z].block in u.order
  }

  /** A plan that a run carries out. */
  ghost predicate Promotes(u: Setup, w: Plan, phiVars: map<nat, nat>) {
    && Fills(u, w, phiVars) && Resolved(w.subst) && PhisNew(u.at, w) && w == PlanOf(u, w.subst, w.phis, phiVars)
  }

  lemma {:induction false} StandsWhere(b: Block, phiVars: map<nat, nat>, a: nat)
    ensures PhiCount(b, phiVars, a) > 0 <==> exists k :: 0 <= k < |b| && StandsFor(b[k], phiVars, a)
  {
    if b != [] {
      StandsWhere(b[1..], phiVars, a);
      assert forall k :: 0 <= k < |b[1..]| ==> b[1..][k] == b[k + 1];
    }
  }

  lemma {:induction false} PhiForWhere(b: Block, phiVars: map<nat, nat>, a: nat)
    ensures PhiFor(b, phiVars, a).Some? <==> exists k :: 0 <= k < |b| && StandsFor(b[k], phiVars, a)
    ensures PhiFor(b, phiVars, a).Some? ==>
      exists k :: 0 <= k < |b| && StandsFor(b[k], phiVars, a) && b[k].id == PhiFor(b, phiVars, a).value
  {
    if b != [] {
      PhiForWhere(b[..|b| - 1], phiVars, a);
      if exists k :: 0 <= k < |b| && StandsFor(b[k], phiVars, a) {
        var k :| 0 <= k < |b| && StandsFor(b[k], phiVars, a);
        assert k < |b| - 1 ==> StandsFor(b[..|b| - 1][k], phiVars, a);
      }
      if StandsFor(b[|b| - 1], phiVars, a) {
        assert PhiFor(b, phiVars, a) == Some(b[|b| - 1].id);
      } else if PhiFor(b, phiVars, a).Some? {
        var k :| 0 <= k < |b| - 1 && StandsFor(b[..|b| - 1][k], phiVars, a)
          && b[..|b| - 1][k].id == PhiFor(b, phiVars, a).value;
        assert StandsFor(b[k], phiVars, a);
      }
    }
  }

  lemma FillsPlaces(u: Setup, w: Plan, phiVars: map<nat, nat>)
    requires Fills(u, w, phiVars)
    ensures Placed(u, FlowBy(u, w, phiVars))
  {
    hide PhiAllowed, PhiFilled, LoadTakes, PhiCount, PhiFor;
    forall b, a | b in u.f.blocks && a in u.vars
      ensures PhiFor(PhisAt(w.phis, b), phiVars, a).Some? <==> PhiAllowed(u, a, b)
    {
      StandsWhere(PhisAt(w.phis, b), phiVars, a);
      PhiForWhere(PhisAt(w.phis, b), phiVars, a);
      assert PhiCount(PhisAt(w.phis, b), phiVars, a) == if PhiAllowed(u, a, b) then 1 else 0;
    }
  }

  lemma {:induction false} BeforeIs(order: seq<BlockId>, n: nat)
    requires n < |order| && NoDup(order)
    ensures Before(order, order[n]) == order[..n]
  {
    if n > 0 {
      BeforeIs(order[1..], n - 1);
      assert order[1..][n - 1] == order[n];
    }
  }

  // A variable in front of the n-th block.
  lemma HeldIs(u: Setup, w: Plan, phiVars: map<nat, nat>, n: nat, a: nat)
    requires w == PlanOf(u, w.subst, w.phis, phiVars) && n < |u.order| && NoDup(u.order) && a in u.vars
    ensures var x, b := FlowBy(u, w, phiVars), u.order[n];
      && HeldAt(w, b, Alloc(a)) == PushedWith(x, u.order[..n], PhisAt(w.phis, b), [], a)
      && MergedAt(w, b, Alloc(a)) == PhiFor(PhisAt(w.phis, b), phiVars, a)
      && (MergedAt(w, b, Alloc(a)).None? ==> HeldAt(w, b, Alloc(a)) == Pushed(x, u.order[..n], a))
  {
    hide PhiFor, Pushed;
    BeforeIs(u.order, n);
    var x, b := FlowBy(u, w, phiVars), u.order[n];
    assert w.held[b] == HeldFrom(u.vars, x, u.order[..n]);
    assert w.merged[b] == MergedIn(u.vars, x, b);
  }

  lemma ValueIs(u: Setup, w: Plan, phiVars: map<nat, nat>, n: nat, k: nat, a: nat)
    requires w == PlanOf(u, w.subst, w.phis, phiVars) && n < |u.order| && NoDup(u.order) && a in u.vars
    requires u.order[n] in u.f.blocks && k <= |u.f.blocks[u.order[n]]|
    ensures var b := u.order[n];
      ValueHeld(u.f, w, b, k, Alloc(a))
        == PushedWith(FlowBy(u, w, phiVars), u.order[..n], PhisAt(w.phis, b), u.f.blocks[b][..k], a)
  {
    hide PlanOf, PhiFor, Pushed, LastStored, HeldAt, MergedAt;
    HeldIs(u, w, phiVars, n, a);
    assert LastStored([], Alloc(a)) == None by {
      NothingStored([], Alloc(a));
    }
  }

  // What was pushed last when the walk had been through the n-th block.
  lemma ValueAtEnd(u: Setup, w: Plan, phiVars: map<nat, nat>, n: nat, a: nat)
    requires w == PlanOf(u, w.subst, w.phis, phiVars) && n < |u.order| && NoDup(u.order) && a in u.vars
    requires u.order[n] in u.f.blocks
    ensures var b := u.order[n];
      ValueHeld(u.f, w, b, |u.f.blocks[b]|, Alloc(a)) == Pushed(FlowBy(u, w, phiVars), u.order[..n + 1], a)
  {
    hide PlanOf, PushedWith, ValueHeld;
    var b := u.order[n];
    ValueIs(u, w, phiVars, n, |u.f.blocks[b]|, a);
    assert u.f.blocks[b][..|u.f.blocks[b]|] == u.f.blocks[b];
    assert u.order[..n + 1] == u.order[..n] + [b];
    PushedNext(FlowBy(u, w, phiVars), u.order[..n], b, a);
  }

  lemma {:induction false} PushedByAt(x: Flow, order: seq<BlockId>, n: nat, a: nat)
    requires n < |order| && NoDup(order)
    ensures PushedBy(x, order, order[n], a) == Pushed(x, order[..n + 1], a)
    decreases |order|
  {
    hide Pushed;
    if n == |order| - 1 {
      assert order[..n + 1] == order;
    } else {
      var front := order[..|order| - 1];
      PushedByAt(x, front, n, a);
      assert front[..n + 1] == order[..n + 1];
    }
  }

  // ---- Why the plan is sound

  lemma PhiFlows(u: Setup, w: Plan, phiVars: map<nat, nat>, i: nat, j: nat, a: nat, id: nat)
    requires Fills(u, w, phiVars) && i < |u.order| && j < |u.order| && NoDup(u.order) && u.order[j] in u.f.blocks
    requires IsEdge(u.f, u.order[i], u.order[j]) && PhiFor(PhisAt(w.phis, u.order[j]), phiVars, a) == Some(id)
    ensures NewIn(w, id, u.order[j])
    ensures Lookup(FindPhi(NewPhis(w, u.order[j]), id).value, u.order[i])
         == Pushed(FlowBy(u, w, phiVars), u.order[..i + 1], a)
  {
    hide PhiAllowed, LoadTakes, PhiCount, PhiFor, IsEdge, PushedBy, Pushed, FindPhi;
    var x, b := FlowBy(u, w, phiVars), u.order[j];
    var phis := PhisAt(w.phis, b);
    PhiForWhere(phis, phiVars, a);
    FindPhiSome(phis, id);
    var k :| 0 <= k < |phis| && phis[k] == PhiInst(id, FindPhi(phis, id).value);
    assert PhiFilled(u, x, b, PhisAt(w.phis, b)[k]);
    PhiForIs(phis, phiVars, a);
    assert Lookup(phis[k].incoming, u.order[i]) == Supplied(x, u.order, u.order[i], b, phiVars[id]);
    PushedByAt(x, u.order, i, a);
  }

  lemma PhiForIs(phis: Block, phiVars: map<nat, nat>, a: nat)
    requires PhiFor(phis, phiVars, a).Some?
    ensures var id := PhiFor(phis, phiVars, a).value; id in phiVars && phiVars[id] == a && id in PhiIds(phis)
  {
    hide PhiFor;
    PhiForWhere(phis, phiVars, a);
  }

  lemma HasGraph(u: Promotion)
    ensures |u.f.order| > 0 && forall b :: b in u.f.order ==> b in u.f.blocks
  {
  }

  lemma OrderInside(u: Promotion)
    ensures ValidFunction(u.f) && NoDup(u.order) && u.order != [] && u.order[0] == Entry(u.f)
    ensures forall b :: b in u.order <==> CanRun(u.f, b)
    ensures forall b :: b in u.order ==> b in u.f.blocks
  {
    hide WellFormed, NoneStored, DT.ExactParents, DC.Climbs, Reachable;
    forall b | b in u.order
      ensures b in u.f.blocks
    {
      ReachableIsBlock(u.f, b);
    }
  }

  lemma VarFlows(u: Promotion, w: Plan, phiVars: map<nat, nat>, i: nat, j: nat, a: nat)
    requires Promotes(u, w, phiVars) && Served(u) && i < |u.order| && j < |u.order| && a in u.vars
    requires ValidFunction(u.f) && IsEdge(u.f, u.order[i], u.order[j]) && Wanted(u.f, u.order[j], 0, Alloc(a))
    ensures u.order[i] in u.f.blocks && FlowsIn(u.f, w, u.order[i], u.order[j], Alloc(a))
  {
    hide IsSetup, Wanted, PlanOf, IsEdge, SiteAfter, Pushed, PhiFor, PhiAllowed, HeldAt, MergedAt, ValueHeld,
      PushedWith, ValidFunction, LoadTakes, PhiFilled, FindPhi, PhisNew, CanRun, ValueOf;
    OrderInside(u);
    var x, b := FlowBy(u, w, phiVars), u.order[j];
    HeldIs(u, w, phiVars, j, a);
    ValueAtEnd(u, w, phiVars, i, a);
    var phi := PhiFor(PhisAt(w.phis, b), phiVars, a);
    if phi.Some? {
      PhiFlows(u, w, phiVars, i, j, a, phi.value);
    } else {
      FillsPlaces(u, w, phiVars);
      assert !PhiAllowed(u, a, b);
      assert SiteAfter(u, u.order[..i + 1], a) == SiteAfter(u, u.order[..j], a);
      PushedAfterSite(u, x, u.order[..i + 1], a);
      PushedAfterSite(u, x, u.order[..j], a);
    }
  }

  lemma VarStarts(u: Promotion, w: Plan, phiVars: map<nat, nat>, a: nat)
    requires Promotes(u, w, phiVars) && a in u.vars
    ensures |u.f.order| > 0 && StartsEmpty(u.f, w, Alloc(a))
  {
    hide IsSetup, PlanOf, PhiFor, PhiAllowed, HeldAt, MergedAt, LoadTakes, PhiFilled, FindPhi, PhisNew, CanRun;
    OrderInside(u);
    HeldIs(u, w, phiVars, 0, a);
    assert u.order[..0] == [];
    var phis := PhisAt(w.phis, Entry(u.f));
    if PhiFor(phis, phiVars, a).Some? {
      PhiForIs(phis, phiVars, a);
      FindPhiSome(phis, PhiFor(phis, phiVars, a).value);
    }
  }

  lemma VarsFlow(u: Promotion, w: Plan, phiVars: map<nat, nat>)
    requires Promotes(u, w, phiVars) && Served(u)
    ensures ValidFunction(u.f) && CellsFlow(u.f, w)
  {
    hide IsSetup, Wanted, PlanOf, PhiAllowed, FlowsIn, StartsEmpty, Fills, Served, HasEdge, ValidFunction, PhisNew,
      CanRun;
    HasGraph(u);
    OrderInside(u);
    assert w.cells == CellsOf(u.vars) by {
      CellsAre(u, w, phiVars);
    }
    forall p, b, cell | cell in w.cells && CanRun(u.f, p) && p in u.f.blocks && HasEdge(CfgOf(u.f), p, b)
      && Wanted(u.f, b, 0, cell)
      ensures FlowsIn(u.f, w, p, b, cell)
    {
      NextCanRun(u, p, b);
      var i :| 0 <= i < |u.order| && u.order[i] == p;
      var j :| 0 <= j < |u.order| && u.order[j] == b;
      assert IsEdge(u.f, p, b) by {
        EdgeIs(u, p, b);
      }
      VarFlows(u, w, phiVars, i, j, cell.id);
    }
    forall cell | cell in w.cells && Wanted(u.f, Entry(u.f), 0, cell)
      ensures StartsEmpty(u.f, w, cell)
    {
      VarStarts(u, w, phiVars, cell.id);
    }
  }

  lemma CellsAre(u: Setup, w: Plan, phiVars: map<nat, nat>)
    requires w == PlanOf(u, w.subst, w.phis, phiVars)
    ensures w.cells == CellsOf(u.vars) && w.dropped == {}
  {
  }

  lemma EdgeIs(u: Promotion, p: BlockId, b: BlockId)
    requires ValidFunction(u.f) && HasEdge(CfgOf(u.f), p, b)
    ensures IsEdge(u.f, p, b)
  {
  }

  lemma NextCanRun(u: Promotion, p: BlockId, b: BlockId)
    requires ValidFunction(u.f) && CanRun(u.f, p) && HasEdge(CfgOf(u.f), p, b)
    ensures CanRun(u.f, b)
  {
    hide IsSetup;
    ReachableStep(CfgOf(u.f), p, b);
  }

  // Every load of a variable in code that can be run is replaced by what stands for it.
  lemma LoadIsServed(u: Promotion, w: Plan, phiVars: map<nat, nat>, p: Pos)
    requires Promotes(u, w, phiVars) && Within(u.f, p) && CanRun(u.f, p.block) && IsVarLoad(u.vars, InstAt(u.f, p))
    ensures LoadServed(u.f, w, p)
  {
    hide IsSetup, PlanOf, PhiAllowed, ValueHeld, ValidFunction, PhiFilled, PhisNew, CanRun, PushedWith;
    OrderInside(u);
    var n :| 0 <= n < |u.order| && u.order[n] == p.block;
    assert LoadTakes(u, FlowBy(u, w, phiVars), n, p.index);
    ValueIs(u, w, phiVars, n, p.index, InstAt(u.f, p).ptr.id);
  }

  lemma LoadIsJustified(u: Promotion, w: Plan, phiVars: map<nat, nat>, z: nat)
    requires Promotes(u, w, phiVars) && z in w.subst && WellFormed(u.f, u.at)
    ensures z in u.at && JustifiedUse(u.f, u.at, w, z)
  {
    hide IsSetup, PlanOf, PhiAllowed, ValueHeld, ValidFunction, PhiFilled, PhisNew, CanRun, LoadTakes, OperandsAvail,
      IncomingAvail;
    OrderInside(u);
    assert VarLoadAt(u, z) && u.at[z].block in u.order;
    DefinedHere(u.f, u.at, z);
    LoadIsServed(u, w, phiVars, u.at[z]);
    CellsAre(u, w, phiVars);
    assert InstAt(u.f, u.at[z]).ptr in w.cells;
  }

  lemma PromotionFacts(u: Promotion)
    requires u.vars != {}
    ensures WellFormed(u.f, u.at) && NoneStored(u.f, u.vars) && forall x :: x in u.at ==> x < u.base
  {
  }

  /** The plan of a run is sound for the functions for which the walk is right. */
  lemma PlanIsSound(u: Promotion, w: Plan, phiVars: map<nat, nat>)
    requires u.vars != {} && Promotes(u, w, phiVars) && Served(u)
    ensures WellFormed(u.f, u.at) && Sound(u.f, u.at, w)
  {
    hide IsSetup, Served, PlanOf, Fills, WellFormed, CellsFlow, JustifiedUse, LoadServed, PhisNew;
    PromotionFacts(u);
    VarsFlow(u, w, phiVars);
    CellsAre(u, w, phiVars);
    WellLocated(u.f, u.at);
    forall z | z in w.subst
      ensures z in u.at && JustifiedUse(u.f, u.at, w, z)
    {
      LoadIsJustified(u, w, phiVars, z);
    }
    forall p | Within(u.f, p) && Reachable(CfgOf(u.f), p.block) && InstAt(u.f, p).LoadInst?
      && InstAt(u.f, p).ptr in w.cells
      ensures LoadServed(u.f, w, p)
    {
      ReachableIsBlock(u.f, p.block);
      LoadIsServed(u, w, phiVars, p);
    }
  }

  lemma WellLocated(f: Function, at: Places)
    requires WellFormed(f, at)
    ensures ValidFunction(f) && Located(f, at)
  {
  }

  // ---- Loads that one store reaches

  // The store at q is the only one to its variable in code that can be run.
  ghost predicate OnlyStore(f: Function, q: Pos)
    requires Within(f, q) && InstAt(f, q).StoreInst?
  {
    forall p {:trigger InstAt(f, p)} ::
      Within(f, p) && CanRun(f, p.block) && StoresTo(InstAt(f, p), InstAt(f, q).ptr) ==> p == q
  }

  // The store at q reaches the load at p: it comes before it in the same block, or it is the
  // only one to its variable and its block dominates that of the load.
  ghost predicate Reaches(f: Function, q: Pos, p: Pos)
    requires ValidFunction(f) && Within(f, p) && InstAt(f, p).LoadInst?
  {
    && Within(f, q) && StoresTo(InstAt(f, q), InstAt(f, p).ptr)
    && if q.block == p.block then q.index < p.index else OnlyStore(f, q) && Dom(CfgOf(f), q.block, p.block)
  }

  ghost predicate HasReaching(f: Function, p: Pos)
    requires ValidFunction(f) && Within(f, p) && InstAt(f, p).LoadInst?
  {
    exists q {:trigger Reaches(f, q, p)} :: Reaches(f, q, p)
  }

  // Every load of a variable in code that can be run follows a store to it in its block or is dominated by its only
  // store there.
  ghost predicate AllReached(u: Promotion) {
    ValidFunction(u.f) && forall p {:trigger InstAt(u.f, p)} ::
      Within(u.f, p) && CanRun(u.f, p.block) && IsVarLoad(u.vars, InstAt(u.f, p)) ==> HasReaching(u.f, p)
  }

  // A variable that is still to be loaded has been stored in the block, or its only store dominates that strictly.
  lemma {:induction false} WantedReached(u: Promotion, b: BlockId, k: nat, a: nat, n: nat) returns (q: Pos)
    requires AllReached(u) && a in u.vars && CanRun(u.f, b) && WantedWithin(u.f, b, k, Alloc(a), n)
    ensures Within(u.f, q) && StoresTo(InstAt(u.f, q), Alloc(a))
    ensures (q.block == b && q.index < k) || (OnlyStore(u.f, q) && StrictDom(CfgOf(u.f), q.block, b))
    decreases n
  {
    hide IsSetup, ValidFunction, Dom, OnlyStore, Reachable;
    HasGraph(u);
    if k < |u.f.blocks[b]| {
      if LoadsFrom(u.f.blocks[b][k], Alloc(a)) {
        var p := Pos(b, k);
        assert InstAt(u.f, p) == u.f.blocks[b][k] && HasReaching(u.f, p);
        q :| Reaches(u.f, q, p);
      } else {
        q := WantedReached(u, b, k + 1, a, n - 1);
      }
    } else {
      var d :| HasEdge(CfgOf(u.f), b, d) && WantedWithin(u.f, d, 0, Alloc(a), n - 1);
      ReachableStep(CfgOf(u.f), b, d);
      q := WantedReached(u, d, 0, a, n - 1);
      DomPred(CfgOf(u.f), q.block, b, d);
    }
  }

  lemma {:induction false} LastStoreIs(b: Block, cell: Value, m: nat)
    requires m < |b| && StoresTo(b[m], cell) && forall k :: 0 <= k < |b| && StoresTo(b[k], cell) ==> k == m
    ensures LastStore(b, cell) == Some(m)
    decreases |b|
  {
    if m < |b| - 1 {
      assert b[|b| - 1] == b[|b| - 1];
      LastStoreIs(b[..|b| - 1], cell, m);
    }
  }

  // Inside of what its block dominates, the only store is the site.
  lemma {:induction false} OnlySite(u: Promotion, q: Pos, a: nat, m: nat, n: nat)
    requires Within(u.f, q) && StoresTo(InstAt(u.f, q), Alloc(a)) && OnlyStore(u.f, q) && a in u.vars
    requires m < n <= |u.order| && u.order[m] == q.block && ValidFunction(u.f)
    requires forall k :: m <= k < n ==> Dom(CfgOf(u.f), q.block, u.order[k])
    ensures SiteAfter(u, u.order[..n], a) == Some(StoreSite(q))
    decreases n
  {
    hide IsSetup, ValidFunction, Dom, CanRun, PhiAllowed;
    OrderInside(u);
    var c := u.order[n - 1];
    assert u.order[..n][..n - 1] == u.order[..n - 1] && u.order[..n][n - 1] == c;
    forall k | 0 <= k < |u.f.blocks[c]| && StoresTo(u.f.blocks[c][k], Alloc(a))
      ensures Pos(c, k) == q
    {
      assert InstAt(u.f, Pos(c, k)) == u.f.blocks[c][k];
    }
    if n - 1 == m {
      LastStoreIs(u.f.blocks[c], Alloc(a), q.index);
    } else {
      NoPhiInside(u, q, a, c);
      assert LastStore(u.f.blocks[c], Alloc(a)) == None;
      OnlySite(u, q, a, m, n - 1);
    }
  }

  lemma NoPhiInside(u: Promotion, q: Pos, a: nat, c: BlockId)
    requires Within(u.f, q) && StoresTo(InstAt(u.f, q), Alloc(a)) && OnlyStore(u.f, q)
    requires ValidFunction(u.f) && StrictDom(CfgOf(u.f), q.block, c)
    ensures !PhiAllowed(u, a, c)
  {
    hide IsSetup, ValidFunction, Dom, CanRun;
    HasGraph(u);
    forall r | VarStoreAt(u, r) && InstAt(u.f, r).ptr == Alloc(a) && CanRun(u.f, r.block)
      ensures r == q
    {
      assert StoresTo(InstAt(u.f, r), Alloc(a));
    }
  }

  lemma OrderFacts(u: Promotion)
    ensures ValidFunction(u.f) && Preorder(CfgOf(u.f), u.order)
  {
    hide WellFormed, NoneStored, DT.ExactParents, DC.Climbs, ValidFunction, Preorder;
  }

  lemma SiteOfReached(u: Promotion, i: nat, j: nat, a: nat)
    requires AllReached(u) && a in u.vars && i < |u.order| && j < |u.order| && IsEdge(u.f, u.order[i], u.order[j])
    requires Wanted(u.f, u.order[j], 0, Alloc(a))
    ensures SiteAfter(u, u.order[..i + 1], a) == SiteAfter(u, u.order[..j], a)
  {
    hide IsSetup, AllReached, Dom, CanRun, SiteAfter, WantedWithin, ValidFunction, OnlyStore, NoDup;
    OrderFacts(u);
    OrderInside(u);
    HasGraph(u);
    var n: nat :| WantedWithin(u.f, u.order[j], 0, Alloc(a), n);
    var q := WantedReached(u, u.order[j], 0, a, n);
    DomPred(CfgOf(u.f), q.block, u.order[i], u.order[j]);
    ReachableDominator(u, q.block, u.order[j]);
    var m :| 0 <= m < |u.order| && u.order[m] == q.block;
    OnlySite(u, q, a, m, i + 1);
    OnlySite(u, q, a, m, j);
  }

  lemma ReachableDominator(u: Promotion, d: BlockId, b: BlockId)
    requires ValidFunction(u.f) && b in u.order && Dom(CfgOf(u.f), d, b)
    ensures d in u.order
  {
    hide IsSetup, ValidFunction, Dom;
    HasGraph(u);
    OrderFacts(u);
    DominatorReachable(CfgOf(u.f), d, b);
  }

  /** The walk is right where every load has one store that reaches it. */
  lemma ReachedIsServed(u: Promotion)
    requires AllReached(u)
    ensures Served(u)
  {
    hide IsSetup, Wanted, IsEdge, SiteAfter, HasReaching, ValidFunction, PhiAllowed;
    forall i, j, a | 0 <= i < |u.order| && 0 <= j < |u.order| && a in u.vars && IsEdge(u.f, u.order[i], u.order[j])
      && Wanted(u.f, u.order[j], 0, Alloc(a)) && !PhiAllowed(u, a, u.order[j])
      ensures SiteAfter(u, u.order[..i + 1], a) == SiteAfter(u, u.order[..j], a)
    {
      SiteOfReached(u, i, j, a);
    }
  }

  /** There the variables may hold anything at first. */
  lemma ReachedStartsClear(u: Promotion, st: State)
    requires AllReached(u)
    ensures ValidFunction(u.f) && StartsClear(u.f, CellsOf(u.vars), st)
  {
    hide IsSetup, WantedWithin, HasReaching, ValidFunction, Dom, Reachable;
    HasGraph(u);
    EntryReachable(CfgOf(u.f));
    forall a | a in u.vars && Wanted(u.f, Entry(u.f), 0, Alloc(a))
      ensures false
    {
      var n: nat :| WantedWithin(u.f, Entry(u.f), 0, Alloc(a), n);
      var q := WantedReached(u, Entry(u.f), 0, a, n);
      OnlyEntryDominatesEntry(CfgOf(u.f), q.block);
    }
  }
}

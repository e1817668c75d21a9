/** Which variables a run of the promotion leaves for the next one, and that the control flow stays as it is. */
module NextRun {
  import opened Words
  import opened Graph
  import opened Dominance
  import opened Ir
  import opened Ssa
  import opened Rewrite
  import opened FunctionObject
  import opened ControlFlow
  import opened PushedValues
  import opened TreeWalk
  import opened PromotedVariables
  import DC = DominanceComputer
  import DT = DominatorTree

  // The load of x, in code that can be run, takes what the store at q has pushed.
  ghost predicate TakesFrom(u: Setup, x: nat, q: Pos) {
    VarLoadAt(u, x) && u.at[x].block in u.order && SiteOf(u, u.at[x]) == Some(StoreSite(q))
  }

  // The site of what is pushed last where a load is.
  ghost function SiteOf(u: Setup, p: Pos): Option<Site>
    requires Within(u.f, p) && InstAt(u.f, p).LoadInst? && InstAt(u.f, p).ptr.Alloc?
  {
    SiteAt(u, Before(u.order, p.block), p.block, u.f.blocks[p.block][..p.index], InstAt(u.f, p).ptr.id)
  }

  // The value is the address of variable c, directly or through at most n promoted loads.
  ghost predicate Carries(u: Setup, v: Value, c: nat, n: nat)
    decreases n
  {
    v == Alloc(c)
      || (n > 0 && v.Def?
            && exists q {:trigger TakesFrom(u, v.id, q)} :: TakesFrom(u, v.id, q) && VarStoreAt(u, q)
                 && Carries(u, InstAt(u.f, q).val, c, n - 1))
  }

  ghost predicate CarriesAddress(u: Setup, v: Value, c: nat) {
    exists n: nat :: Carries(u, v, c, n)
  }

  // A store that the run leaves.
  ghost predicate KeptStore(u: Setup, p: Pos) {
    Within(u.f, p) && InstAt(u.f, p).StoreInst? && !IsVarStore(u.vars, InstAt(u.f, p))
  }

  // The store is left and uses variable c, once the promoted loads are replaced.
  ghost predicate StoreUses(u: Setup, p: Pos, c: nat) {
    KeptStore(u, p) && (CarriesAddress(u, InstAt(u.f, p).ptr, c) || CarriesAddress(u, InstAt(u.f, p).val, c))
  }

  /** The run makes variable c promotable: some store that is left uses it, and all that do store through it. */
  ghost predicate Freed(u: Setup, c: nat) {
    && HasAlloc(u.f, c) && (exists p {:trigger StoreUses(u, p, c)} :: StoreUses(u, p, c))
    && forall p {:trigger StoreUses(u, p, c)} :: StoreUses(u, p, c) ==> CarriesAddress(u, InstAt(u.f, p).ptr, c)
  }

  ghost predicate NoneFreed(u: Setup) {
    forall c :: !Freed(u, c)
  }

  // The replacements by addresses are those of values that carry them.
  ghost predicate Addresses(u: Setup, s: Subst) {
    forall v, c {:trigger CarriesAddress(u, v, c)} :: Apply(s, v) == Alloc(c) <==> CarriesAddress(u, v, c)
  }

  lemma CarriesMore(u: Setup, q: Pos, x: nat, c: nat)
    requires TakesFrom(u, x, q) && VarStoreAt(u, q)
    requires CarriesAddress(u, InstAt(u.f, q).val, c)
    ensures CarriesAddress(u, Def(x), c)
  {
    hide SiteOf, VarLoadAt;
    var n: nat :| Carries(u, InstAt(u.f, q).val, c, n);
    assert Carries(u, Def(x), c, n + 1);
  }

  // A load is replaced by the value at its site.
  lemma LoadHasSite(u: Promotion, w: Plan, phiVars: map<nat, nat>, x: nat)
    requires Promotes(u, w, phiVars) && VarLoadAt(u, x) && u.at[x].block in u.order
    ensures Lookup(w.subst, x) == ValueOf(FlowBy(u, w, phiVars), SiteOf(u, u.at[x]), InstAt(u.f, u.at[x]).ptr.id)
  {
    hide IsSetup, PlanOf, PhiAllowed, ValidFunction, PhiFilled, PhisNew, CanRun, PushedWith, SiteAt, ValueOf;
    OrderInside(u);
    var p := u.at[x];
    var n :| 0 <= n < |u.order| && u.order[n] == p.block;
    BeforeIs(u.order, n);
    PromotionFacts(u);
    WellLocated(u.f, u.at);
    DefinedHere(u.f, u.at, x);
    FillsPlaces(u, w, phiVars);
    assert LoadTakes(u, FlowBy(u, w, phiVars), n, p.index);
    PushedAtSite(u, FlowBy(u, w, phiVars), u.order[..n], p.block, u.f.blocks[p.block][..p.index],
      InstAt(u.f, p).ptr.id);
  }

  // A store that is the site of a block or of the walk so far.
  lemma {:induction false} SiteIsStore(u: Setup, front: seq<BlockId>, a: nat, q: Pos)
    requires SiteAfter(u, front, a) == Some(StoreSite(q))
    ensures q.block in front && q.index < |BlockOf(u.f, q.block)| && StoresTo(BlockOf(u.f, q.block)[q.index], Alloc(a))
    decreases |front|
  {
    hide PhiAllowed;
    var b := front[|front| - 1];
    if LastStore(BlockOf(u.f, b), Alloc(a)).None? && !PhiAllowed(u, a, b) {
      SiteIsStore(u, front[..|front| - 1], a, q);
    }
  }

  lemma {:induction false} BeforeIn(order: seq<BlockId>, b: BlockId)
    requires b in order
    ensures |Before(order, b)| < |order| && order[|Before(order, b)|] == b
    ensures Before(order, b) == order[..|Before(order, b)|]
  {
    if order[0] != b {
      BeforeIn(order[1..], b);
    }
  }

  // The store that a load takes from comes before it on the walk.
  lemma SiteComesBefore(u: Promotion, x: nat, q: Pos)
    requires TakesFrom(u, x, q)
    ensures Within(u.f, q) && VarStoreAt(u, q) && InstAt(u.f, q).ptr == InstAt(u.f, u.at[x]).ptr
    ensures q.block in u.order
    ensures if q.block == u.at[x].block then q.index < u.at[x].index
            else |Before(u.order, q.block)| < |Before(u.order, u.at[x].block)|
  {
    hide IsSetup, PhiAllowed, CanRun, ValidFunction;
    OrderInside(u);
    var p, a := u.at[x], InstAt(u.f, u.at[x]).ptr.id;
    var front := Before(u.order, p.block);
    BeforeIn(u.order, p.block);
    if LastStore(u.f.blocks[p.block][..p.index], Alloc(a)).None? {
      SiteIsStore(u, front, a, q);
      var m :| 0 <= m < |front| && front[m] == q.block;
      assert u.order[m] == q.block;
      BeforeIs(u.order, m);
    }
  }

  lemma {:induction false} CarriedIsApplied(u: Promotion, w: Plan, phiVars: map<nat, nat>, v: Value, c: nat, n: nat)
    requires Promotes(u, w, phiVars) && Carries(u, v, c, n)
    ensures Apply(w.subst, v) == Alloc(c)
    decreases n
  {
    hide IsSetup, Promotes, VarLoadAt, SiteOf;
    if v != Alloc(c) {
      var q :| TakesFrom(u, v.id, q) && VarStoreAt(u, q) && Carries(u, InstAt(u.f, q).val, c, n - 1);
      CarriedIsApplied(u, w, phiVars, InstAt(u.f, q).val, c, n - 1);
      LoadHasSite(u, w, phiVars, v.id);
    }
  }

  // What a stored value comes from has been loaded before on the walk.
  lemma OperandComesBefore(u: Promotion, q: Pos, z: nat)
    requires VarStoreAt(u, q) && InstAt(u.f, q).val == Def(z) && q.block in u.order && VarLoadAt(u, z)
    ensures u.at[z].block in u.order
    ensures if u.at[z].block == q.block then u.at[z].index < q.index
            else |Before(u.order, u.at[z].block)| < |Before(u.order, q.block)|
  {
    hide NoneStored, DT.ExactParents, DC.Climbs, Located, IncomingAvail, Dom, Reachable, CanRun;
    PromotionFacts(u);
    OrderInside(u);
    assert OperandsAvail(u.f, u.at, q);
    assert InstAt(u.f, q).val in Operands(InstAt(u.f, q));
    assert Avail(u.f, u.at, z, q.block, q.index);
    if u.at[z].block != q.block {
      DominatorReachable(CfgOf(u.f), u.at[z].block, q.block);
      BeforeIn(u.order, q.block);
      BeforeIn(u.order, u.at[z].block);
    }
  }

  lemma {:induction false} AppliedIsCarried(u: Promotion, w: Plan, phiVars: map<nat, nat>, z: nat, c: nat)
    requires Promotes(u, w, phiVars) && z in w.subst && w.subst[z] == Alloc(c)
    requires VarLoadAt(u, z) && u.at[z].block in u.order
    ensures CarriesAddress(u, Def(z), c)
    decreases |Before(u.order, u.at[z].block)|, u.at[z].index
  {
    hide IsSetup, PlanOf, SiteOf, PhisNew, LoadTakes, PhiFilled, PhiAllowed, Before;
    LoadHasSite(u, w, phiVars, z);
    var q := SiteOf(u, u.at[z]).value.q;
    assert TakesFrom(u, z, q);
    SiteComesBefore(u, z, q);
    var val := InstAt(u.f, q).val;
    if val.Def? {
      assert VarLoadAt(u, val.id);
      OperandComesBefore(u, q, val.id);
      AppliedIsCarried(u, w, phiVars, val.id, c);
    } else {
      assert Carries(u, val, c, 0);
    }
    CarriesMore(u, q, z, c);
  }

  lemma AddressesFound(u: Promotion, w: Plan, phiVars: map<nat, nat>)
    requires Promotes(u, w, phiVars)
    ensures Addresses(u, w.subst)
  {
    hide IsSetup, PlanOf, VarLoadAt, PhisNew, LoadTakes, PhiFilled, PhiAllowed, Carries;
    forall v, c
      ensures Apply(w.subst, v) == Alloc(c) <==> CarriesAddress(u, v, c)
    {
      if CarriesAddress(u, v, c) {
        var n: nat :| Carries(u, v, c, n);
        CarriedIsApplied(u, w, phiVars, v, c, n);
      }
      if v == Alloc(c) {
        CarriesItself(u, c);
      } else if Apply(w.subst, v) == Alloc(c) {
        AppliedIsCarried(u, w, phiVars, v.id, c);
        assert v == Def(v.id);
      }
    }
  }

  lemma IsPlanned(u: Promotion, w: Plan, phiVars: map<nat, nat>)
    requires Promotes(u, w, phiVars)
    ensures Planned(u, w)
  {
    hide IsSetup, Fills, PlanOf, Addresses;
    AddressesFound(u, w, phiVars);
    CellsAre(u, w, phiVars);
  }

  lemma {:induction false} RewrittenMember(w: Plan, b: Block, k: nat)
    requires k < |RewriteBlock(w, b)|
    ensures exists m :: 0 <= m < |b| && !Drops(w, b[m]) && RewriteBlock(w, b)[k] == RenameInst(w.subst, b[m])
  {
    hide RenameInst;
    var head := RewriteInst(w, b[0]);
    if k >= |head| {
      RewrittenMember(w, b[1..], k - |head|);
      var m :| 0 <= m < |b[1..]| && !Drops(w, b[1..][m])
        && RewriteBlock(w, b[1..])[k - |head|] == RenameInst(w.subst, b[1..][m]);
      assert b[m + 1] == b[1..][m];
    } else {
      assert head[k] == RenameInst(w.subst, b[0]);
    }
  }

  lemma {:induction false} MemberRewritten(w: Plan, b: Block, m: nat)
    requires m < |b| && !Drops(w, b[m])
    ensures exists k :: 0 <= k < |RewriteBlock(w, b)| && RewriteBlock(w, b)[k] == RenameInst(w.subst, b[m])
  {
    hide RenameInst;
    var head := RewriteInst(w, b[0]);
    if m == 0 {
      assert RewriteBlock(w, b)[0] == RenameInst(w.subst, b[0]);
    } else {
      MemberRewritten(w, b[1..], m - 1);
      var k :| 0 <= k < |RewriteBlock(w, b[1..])|
        && RewriteBlock(w, b[1..])[k] == RenameInst(w.subst, b[1..][m - 1]);
      assert RewriteBlock(w, b)[|head| + k] == RenameInst(w.subst, b[m]);
    }
  }

  lemma KeptIn(f: Function, w: Plan, q: Pos) returns (p: Pos)
    requires Within(f, q) && !Drops(w, InstAt(f, q))
    ensures Within(Rewritten(f, w), p) && InstAt(Rewritten(f, w), p) == RenameInst(w.subst, InstAt(f, q))
  {
    hide RewriteBlock, RenameInst;
    var block := f.blocks[q.block];
    MemberRewritten(w, block, q.index);
    var k :| 0 <= k < |RewriteBlock(w, block)| && RewriteBlock(w, block)[k] == RenameInst(w.subst, block[q.index]);
    p := Pos(q.block, |NewPhis(w, q.block)| + k);
  }

  lemma KeptFrom(f: Function, w: Plan, p: Pos) returns (q: Pos)
    requires Within(Rewritten(f, w), p) && !InstAt(Rewritten(f, w), p).PhiInst?
    requires forall b, k :: b in w.phis && 0 <= k < |w.phis[b]| ==> w.phis[b][k].PhiInst?
    ensures Within(f, q) && !Drops(w, InstAt(f, q))
    ensures InstAt(Rewritten(f, w), p) == RenameInst(w.subst, InstAt(f, q))
  {
    hide RewriteBlock, RenameInst;
    var np, block := |NewPhis(w, p.block)|, f.blocks[p.block];
    assert InstAt(Rewritten(f, w), p) == RewriteBlock(w, block)[p.index - np];
    RewrittenMember(w, block, p.index - np);
    var m :| 0 <= m < |block| && !Drops(w, block[m])
      && RewriteBlock(w, block)[p.index - np] == RenameInst(w.subst, block[m]);
    q := Pos(p.block, m);
  }

  // A plan that a run has carried out, as far as the next run sees it.
  ghost predicate Planned(u: Setup, w: Plan) {
    && w.cells == CellsOf(u.vars) && Addresses(u, w.subst)
    && forall b, k :: b in w.phis && 0 <= k < |w.phis[b]| ==> w.phis[b][k].PhiInst?
  }

  lemma DeclaredStill(f: Function, w: Plan, c: nat)
    requires forall b, k :: b in w.phis && 0 <= k < |w.phis[b]| ==> w.phis[b][k].PhiInst?
    ensures HasAlloc(Rewritten(f, w), c) <==> HasAlloc(f, c)
  {
    hide RewriteBlock;
    if HasAlloc(f, c) {
      var q :| Within(f, q) && InstAt(f, q) == AllocInst(c);
      var p := KeptIn(f, w, q);
    }
    if HasAlloc(Rewritten(f, w), c) {
      var p :| Within(Rewritten(f, w), p) && InstAt(Rewritten(f, w), p) == AllocInst(c);
      var q := KeptFrom(f, w, p);
    }
  }

  lemma StoreAfter(u: Setup, w: Plan, q: Pos, c: nat)
    requires Planned(u, w) && Within(u.f, q) && !Drops(w, InstAt(u.f, q))
    ensures var i := RenameInst(w.subst, InstAt(u.f, q));
      && (i.StoreInst? <==> KeptStore(u, q))
      && (i.StoreInst? && UsesValue(i, Alloc(c)) <==> StoreUses(u, q, c))
      && (i.StoreInst? ==> (i.ptr == Alloc(c) <==> CarriesAddress(u, InstAt(u.f, q).ptr, c)))
  {
    hide CarriesAddress;
    var i := InstAt(u.f, q);
    if i.StoreInst? {
      assert Apply(w.subst, i.ptr) == Alloc(c) <==> CarriesAddress(u, i.ptr, c);
      assert Apply(w.subst, i.val) == Alloc(c) <==> CarriesAddress(u, i.val, c);
    }
  }

  lemma KeptNotDropped(u: Setup, w: Plan, q: Pos)
    requires w.cells == CellsOf(u.vars) && KeptStore(u, q)
    ensures !Drops(w, InstAt(u.f, q))
  {
  }

  // The store at q is the one at p afterwards, and both use the variable alike.
  ghost predicate Becomes(u: Setup, g: Function, q: Pos, p: Pos, c: nat) {
    && StoreUses(u, q, c) && IsUser(g, Alloc(c), p) && InstAt(g, p).StoreInst?
    && (InstAt(g, p).ptr == Alloc(c) <==> CarriesAddress(u, InstAt(u.f, q).ptr, c))
  }

  // Which variables the next run promotes.
  lemma NextVars(u: Setup, w: Plan, c: nat)
    requires Planned(u, w)
    ensures var g := Rewritten(u.f, w); HasAlloc(g, c) && !Dead(g, c) && Promotable(g, c) <==> Freed(u, c)
  {
    hide CarriesAddress, Addresses, RenameInst, Rewritten, Drops, UsesValue, HasAlloc;
    var g := Rewritten(u.f, w);
    DeclaredStill(u.f, w, c);
    forall q | StoreUses(u, q, c)
      ensures exists p :: Becomes(u, g, q, p, c)
    {
      KeptNotDropped(u, w, q);
      var p := KeptIn(u.f, w, q);
      StoreAfter(u, w, q, c);
      assert Becomes(u, g, q, p, c);
    }
    forall p | IsUser(g, Alloc(c), p) && InstAt(g, p).StoreInst?
      ensures exists q :: Becomes(u, g, q, p, c)
    {
      var q := KeptFrom(u.f, w, p);
      StoreAfter(u, w, q, c);
      assert Becomes(u, g, q, p, c);
    }
  }

  /** The run after the first finds exactly the variables that the first has freed. It finds none, and the loop stops,
      exactly when none is freed. */
  lemma SecondRunFinds(u: Setup, w: Plan, vars: set<nat>)
    requires Planned(u, w)
    ensures AreVars(Rewritten(u.f, w), vars) <==> forall c :: c in vars <==> Freed(u, c)
    ensures AreVars(Rewritten(u.f, w), {}) <==> NoneFreed(u)
  {
    hide Freed, HasAlloc, Dead, Promotable, Planned;
    forall c
      ensures var g := Rewritten(u.f, w); HasAlloc(g, c) && !Dead(g, c) && Promotable(g, c) <==> Freed(u, c)
    {
      NextVars(u, w, c);
    }
  }

  // No promoted variable is stored the address of another one.
  ghost predicate AddressFree(u: Setup) {
    forall q {:trigger VarStoreAt(u, q)} :: VarStoreAt(u, q) ==> !InstAt(u.f, q).val.Alloc?
  }

  lemma {:induction false} CarriesPlainly(u: Setup, v: Value, c: nat, n: nat)
    requires AddressFree(u) && Carries(u, v, c, n)
    ensures v == Alloc(c)
    decreases n
  {
    hide VarLoadAt, SiteOf;
    if v != Alloc(c) {
      var q :| TakesFrom(u, v.id, q) && VarStoreAt(u, q) && Carries(u, InstAt(u.f, q).val, c, n - 1);
      CarriesPlainly(u, InstAt(u.f, q).val, c, n - 1);
    }
  }

  lemma StoreUsesPlainly(u: Setup, p: Pos, c: nat)
    requires AddressFree(u) && StoreUses(u, p, c)
    ensures CarriesAddress(u, InstAt(u.f, p).ptr, c) ==> InstAt(u.f, p).ptr == Alloc(c)
    ensures KeptStore(u, p) && UsesValue(InstAt(u.f, p), Alloc(c))
  {
    hide AddressFree, Carries;
    var i := InstAt(u.f, p);
    forall v | CarriesAddress(u, v, c)
      ensures v == Alloc(c)
    {
      var n: nat :| Carries(u, v, c, n);
      CarriesPlainly(u, v, c, n);
    }
  }

  /** Where no address is stored to a promoted variable, none is freed. */
  lemma AddressFreeFreesNone(u: Setup)
    requires AddressFree(u) && AreVars(u.f, u.vars)
    ensures NoneFreed(u)
  {
    hide AddressFree, AreVars, StoreUses, HasAlloc;
    forall c | Freed(u, c)
      ensures false
    {
      var p :| StoreUses(u, p, c);
      StoreUsesPlainly(u, p, c);
      PromotableBefore(u, c);
      AlreadyVar(u, p, c);
    }
  }

  // A variable that the run makes promotable was so before.
  lemma PromotableBefore(u: Setup, c: nat)
    requires AddressFree(u) && Freed(u, c)
    ensures Promotable(u.f, c)
  {
    hide HasAlloc, CarriesAddress;
    forall q | IsUser(u.f, Alloc(c), q) && InstAt(u.f, q).StoreInst?
      ensures InstAt(u.f, q).ptr == Alloc(c)
    {
      var i := InstAt(u.f, q);
      if IsVarStore(u.vars, i) {
        assert VarStoreAt(u, q);
      } else {
        CarriesItself(u, c);
        StoreUsesPlainly(u, q, c);
      }
    }
  }

  lemma CarriesItself(u: Setup, c: nat)
    ensures CarriesAddress(u, Alloc(c), c)
  {
    assert Carries(u, Alloc(c), c, 0);
  }

  lemma AlreadyVar(u: Setup, p: Pos, c: nat)
    requires AreVars(u.f, u.vars) && HasAlloc(u.f, c) && Promotable(u.f, c)
    requires Within(u.f, p) && InstAt(u.f, p).StoreInst? && UsesValue(InstAt(u.f, p), Alloc(c))
    ensures IsVarStore(u.vars, InstAt(u.f, p))
  {
    hide HasAlloc;
    assert IsUser(u.f, Alloc(c), p);
    assert !Dead(u.f, c);
  }

  // ---- The control flow stays as it is

  lemma {:induction false} PhiTargets(b: Block)
    requires forall k :: 0 <= k < |b| ==> b[k].PhiInst?
    ensures BlockTargets(b) == []
  {
    if b != [] {
      PhiTargets(b[1..]);
    }
  }

  lemma {:induction false} RewriteTargets(w: Plan, b: Block)
    ensures BlockTargets(RewriteBlock(w, b)) == BlockTargets(b)
  {
    if b != [] {
      RewriteTargets(w, b[1..]);
      TargetsAppend(RewriteInst(w, b[0]), RewriteBlock(w, b[1..]));
      if !Drops(w, b[0]) {
        assert BlockTargets([RenameInst(w.subst, b[0])]) == InstTargets(b[0]) + BlockTargets([]);
      }
    }
  }

  lemma RewrittenTargets(f: Function, w: Plan, b: BlockId)
    requires b in f.blocks && forall c, k :: c in w.phis && 0 <= k < |w.phis[c]| ==> w.phis[c][k].PhiInst?
    ensures BlockTargets(Rewritten(f, w).blocks[b]) == BlockTargets(f.blocks[b])
  {
    PhiTargets(NewPhis(w, b));
    RewriteTargets(w, f.blocks[b]);
    TargetsAppend(NewPhis(w, b), RewriteBlock(w, f.blocks[b]));
  }

  lemma {:induction false} SameEdges(f: Function, w: Plan, order: seq<BlockId>)
    requires forall b :: b in order ==> b in f.blocks
    requires forall c, k :: c in w.phis && 0 <= k < |w.phis[c]| ==> w.phis[c][k].PhiInst?
    ensures EdgesOf(Rewritten(f, w), order) == EdgesOf(f, order)
  {
    hide RewriteBlock;
    if order != [] {
      RewrittenTargets(f, w, order[0]);
      SameEdges(f, w, order[1..]);
    }
  }

  lemma SameGraph(f: Function, w: Plan)
    requires ValidFunction(f) && forall c, k :: c in w.phis && 0 <= k < |w.phis[c]| ==> w.phis[c][k].PhiInst?
    ensures ValidFunction(Rewritten(f, w)) && CfgOf(Rewritten(f, w)) == CfgOf(f)
  {
    hide BlockTargets, RewriteBlock;
    SameEdges(f, w, f.order);
    forall b, d | b in f.blocks && d in BlockTargets(Rewritten(f, w).blocks[b])
      ensures d in f.blocks
    {
      RewrittenTargets(f, w, b);
    }
  }
}

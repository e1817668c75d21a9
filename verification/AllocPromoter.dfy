/** Promotion of variables to values in one walk of the dominator tree. */
module AllocPromoter {
  import opened Words
  import opened Graph
  import opened Dominance
  import opened Ir
  import opened Ssa
  import opened Rewrite
  import opened FunctionObject
  import opened ControlFlow
  import opened TreeWalk
  import opened PushedValues
  import opened PromotedVariables
  import opened NextRun
  import DC = DominanceComputer
  import DT = DominatorTree
  import F = Frontiers

  // ---- The variables

  method IsDead(f: Function, users: seq<Pos>) returns (r: bool)
    requires forall u :: u in users ==> Within(f, u)
    ensures r <==> forall u :: u in users ==> !InstAt(f, u).StoreInst?
  {
    var k := 0;
    while k < |users|
      invariant 0 <= k <= |users| && forall j :: 0 <= j < k ==> !InstAt(f, users[j]).StoreInst?
    {
      if InstAt(f, users[k]).StoreInst? {
        return false;
      }
      k := k + 1;
    }
    r := true;
  }

  method IsPromotable(f: Function, a: nat, users: seq<Pos>) returns (r: bool)
    requires forall u :: u in users ==> Within(f, u)
    ensures r <==> forall u :: u in users && InstAt(f, u).StoreInst? ==> InstAt(f, u).ptr == Alloc(a)
  {
    var k := 0;
    while k < |users|
      invariant 0 <= k <= |users|
      invariant forall j :: 0 <= j < k && InstAt(f, users[j]).StoreInst? ==> InstAt(f, users[j]).ptr == Alloc(a)
    {
      if InstAt(f, users[k]).StoreInst? {
        if InstAt(f, users[k]).ptr != Alloc(a) {
          return false;
        }
      }
      k := k + 1;
    }
    r := true;
  }

  lemma UsersDecide(f: Function, a: nat, users: seq<Pos>)
    requires ValidFunction(f) && users == Users(f, f.order, Alloc(a))
    ensures Dead(f, a) <==> forall u :: u in users ==> !InstAt(f, u).StoreInst?
    ensures Promotable(f, a) <==> forall u :: u in users && InstAt(f, u).StoreInst? ==> InstAt(f, u).ptr == Alloc(a)
    ensures forall u :: u in users ==> Within(f, u)
  {
    forall p
      ensures p in users <==> IsUser(f, Alloc(a), p)
    {
    }
  }

  // Whether one instruction declares a variable that is promoted.
  method Considers(f: Function, i: Inst) returns (r: bool)
    requires ValidFunction(f)
    ensures r <==> i.AllocInst? && !Dead(f, i.id) && Promotable(f, i.id)
  {
    hide Dead, Promotable, ValidFunction;
    if !i.AllocInst? {
      return false;
    }
    OrderInBlocks(f);
    var users := Users(f, f.order, Alloc(i.id));
    UsersDecide(f, i.id, users);
    var dead := IsDead(f, users);
    if dead {
      return false;
    }
    r := IsPromotable(f, i.id, users);
  }

  lemma OrderInBlocks(f: Function)
    requires ValidFunction(f)
    ensures forall b :: b in f.order ==> b in f.blocks
  {
  }

  ghost predicate AllocBefore(f: Function, queue: seq<Pos>, n: nat, a: nat)
    requires n <= |queue|
  {
    exists j :: 0 <= j < n && Within(f, queue[j]) && InstAt(f, queue[j]) == AllocInst(a)
  }

  method CollectVars(f: Function) returns (vars: set<nat>)
    requires ValidFunction(f)
    ensures AreVars(f, vars)
  {
    hide Dead, Promotable, ValidFunction;
    OrderInBlocks(f);
    vars := {};
    var queue := Positions(f, f.order);
    var k := 0;
    while k < |queue|
      invariant 0 <= k <= |queue|
      invariant forall a :: a in vars <==> AllocBefore(f, queue, k, a) && !Dead(f, a) && Promotable(f, a)
    {
      assert queue[k] in queue;
      var i := InstAt(f, queue[k]);
      var r := Considers(f, i);
      forall a
        ensures AllocBefore(f, queue, k + 1, a) <==> AllocBefore(f, queue, k, a) || i == AllocInst(a)
      {
      }
      if r {
        vars := vars + {i.id};
      }
      k := k + 1;
    }
    AllPositions(f, queue);
  }

  lemma AllPositions(f: Function, queue: seq<Pos>)
    requires ValidFunction(f) && queue == Positions(f, f.order)
    ensures forall a :: AllocBefore(f, queue, |queue|, a) <==> HasAlloc(f, a)
  {
    forall a
      ensures AllocBefore(f, queue, |queue|, a) <==> HasAlloc(f, a)
    {
      if HasAlloc(f, a) {
        var p :| Within(f, p) && InstAt(f, p) == AllocInst(a);
        assert p in queue;
        var j :| 0 <= j < |queue| && queue[j] == p;
      }
    }
  }

  // ---- What holds while a block is scanned

  // The walk has come to instruction k of block b.
  datatype Place = Place(visited: set<BlockId>, b: BlockId, k: nat)

  ghost predicate Passed(h: Place, p: Pos) {
    p.block in h.visited || (p.block == h.b && p.index < h.k)
  }

  // Not the address of a variable, and not the result of a load that is still to come or has been replaced.
  ghost predicate Settled(u: Setup, s: Subst, h: Place, v: Value) {
    !IsVar(u.vars, v) && (v.Def? && VarLoadAt(u, v.id) ==> v.id !in s && Passed(h, u.at[v.id]))
  }

  // Only loads that have been passed are replaced.
  ghost predicate Replaced(u: Setup, s: Subst, h: Place) {
    forall x {:trigger x in s} :: x in s ==> VarLoadAt(u, x) && Passed(h, u.at[x]) && Settled(u, s, h, s[x])
  }

  type Stacks = map<nat, seq<Value>>

  function Top(stacks: Stacks, a: nat): Option<Value> {
    if a in stacks && stacks[a] != [] then Some(stacks[a][|stacks[a]| - 1]) else None
  }

  function Push(stacks: Stacks, a: nat, v: Value): (r: Stacks)
    ensures Top(r, a) == Some(v) && forall c :: c != a ==> Top(r, c) == Top(stacks, c)
  {
    stacks[a := (if a in stacks then stacks[a] else []) + [v]]
  }

  // No replacement is the address of a promoted variable.
  ghost predicate AvoidsVars(vars: set<nat>, s: Subst) {
    forall z {:trigger z in s} :: z in s ==> !IsVar(vars, s[z])
  }

  // The block being scanned comes after its strict dominators.
  ghost predicate InOrder(u: Setup, h: Place)
    requires ValidFunction(u.f)
  {
    && h.b in u.f.blocks && h.k <= |u.f.blocks[h.b]| && h.b !in h.visited && CanRun(u.f, h.b)
    && forall d :: StrictDom(CfgOf(u.f), d, h.b) ==> d in h.visited
  }

  ghost predicate Scanning(u: Promotion, s: Subst, h: Place) {
    InOrder(u, h) && Replaced(u, s, h)
  }

  // What has been settled stays so when more has been passed.
  lemma StaysSettled(u: Setup, s: Subst, h: Place, h': Place, v: Value)
    requires Settled(u, s, h, v) && forall p :: Passed(h, p) ==> Passed(h', p)
    ensures Settled(u, s, h', v)
  {
  }

  lemma StaysReplaced(u: Setup, s: Subst, h: Place, h': Place)
    requires Replaced(u, s, h)
    requires forall x {:trigger VarLoadAt(u, x)} :: VarLoadAt(u, x) && Passed(h, u.at[x]) ==> Passed(h', u.at[x])
    ensures Replaced(u, s, h')
  {
  }

  // Replacing a load that is still to come does not change what settled values stand for.
  lemma StaysApplied(u: Setup, s: Subst, h: Place, x: nat, v: Value, w: Value)
    requires x !in s && VarLoadAt(u, x) && !Passed(h, u.at[x]) && Settled(u, s, h, Apply(s, w))
    ensures Apply(s[x := v], w) == Apply(s, w)
  {
  }

  lemma ScanOn(u: Promotion, s: Subst, h: Place)
    requires Scanning(u, s, h) && h.k < |u.f.blocks[h.b]|
    ensures Scanning(u, s, h.(k := h.k + 1))
  {
    hide IsSetup, ValidFunction, Dom, Settled;
    forall x | x in s
      ensures Settled(u, s, h.(k := h.k + 1), s[x])
    {
      StaysSettled(u, s, h, h.(k := h.k + 1), s[x]);
    }
  }

  lemma NotPassedHere(h: Place, p: Pos)
    requires p == Pos(h.b, h.k) && h.b !in h.visited
    ensures !Passed(h, p) && forall r :: Passed(h.(k := h.k + 1), r) <==> Passed(h, r) || r == p
  {
  }

  lemma HasOrder(u: Promotion)
    ensures ValidFunction(u.f) && forall b :: b in u.f.blocks ==> b in u.f.order
  {
  }

  lemma LoadPlace(u: Promotion, p: Pos, x: nat)
    requires Within(u.f, p) && IsVarLoad(u.vars, InstAt(u.f, p)) && x == InstAt(u.f, p).id
    ensures x in u.at && u.at[x] == p && VarLoadAt(u, x) && WellFormed(u.f, u.at)
    ensures forall z :: VarLoadAt(u, z) && u.at[z] == p ==> z == x
  {
    hide IsSetup, OperandsAvail, IncomingAvail, ValidFunction, Located;
    PromotionFacts(u);
    WellLocated(u.f, u.at);
    LocatedPlace(u.f, u.at, p);
    forall z | VarLoadAt(u, z) && u.at[z] == p
      ensures z == x
    {
      DefinedHere(u.f, u.at, z);
    }
  }

  lemma LocatedPlace(f: Function, at: Places, p: Pos)
    requires Located(f, at) && Within(f, p) && DefinesValue(InstAt(f, p))
    ensures InstAt(f, p).id in at && at[InstAt(f, p).id] == p
  {
  }

  // A load is replaced by something settled.
  lemma ScanLoad(u: Promotion, s: Subst, h: Place, p: Pos, x: nat, v: Value)
    requires Scanning(u, s, h) && p == Pos(h.b, h.k) && Within(u.f, p) && IsVarLoad(u.vars, InstAt(u.f, p))
    requires x == InstAt(u.f, p).id && Settled(u, s, h, v)
    ensures x !in s && VarLoadAt(u, x) && u.at[x] == p && !Passed(h, u.at[x])
    ensures Scanning(u, s[x := v], h.(k := h.k + 1))
  {
    hide IsSetup, ValidFunction, Dom, WellFormed, VarLoadAt;
    NotPassedHere(h, p);
    LoadPlace(u, p, x);
  }

  // An operand has been settled by the time it is stored.
  lemma OperandSettled(u: Promotion, s: Subst, h: Place, p: Pos)
    requires Scanning(u, s, h) && p == Pos(h.b, h.k) && VarStoreAt(u, p)
    ensures Settled(u, s, h, Apply(s, InstAt(u.f, p).val))
  {
    hide IsSetup, ValidFunction, Dom, WellFormed;
    HasGraph(u);
    PromotionFacts(u);
    var val := InstAt(u.f, p).val;
    if val.Def? {
      StoredOperand(u, p);
    }
  }

  lemma StoredOperand(u: Promotion, p: Pos)
    requires VarStoreAt(u, p) && InstAt(u.f, p).val.Def?
    ensures InstAt(u.f, p).val.id in u.at && Precedes(u.f, u.at[InstAt(u.f, p).val.id], p.block, p.index)
    ensures VarLoadAt(u, InstAt(u.f, p).val.id) ==> !IsPhi(u.f, u.at[InstAt(u.f, p).val.id])
  {
    hide IsSetup, Dom, Located, IncomingAvail;
    PromotionFacts(u);
    var val := InstAt(u.f, p).val;
    assert OperandsAvail(u.f, u.at, p);
    assert val in Operands(InstAt(u.f, p)) && val == Def(val.id);
  }

  // ---- Between blocks

  // What holds when the next block is about to be popped.
  ghost predicate Between(u: Promotion, s: Subst, w: Walk) {
    WalkOk(CfgOf(u.f), u.doms, w) && Replaced(u, s, Place(w.visited, 0, 0))
  }

  lemma BeginScan(u: Promotion)
    ensures |u.f.order| > 0 && Between(u, map[], Walk({}, [Entry(u.f)]))
  {
    hide IsSetup, Dom;
    HasTree(u);
    BeginWalk(CfgOf(u.f), u.doms);
    assert CfgOf(u.f).entry == Entry(u.f);
  }

  lemma HasTree(u: Promotion)
    ensures |u.f.order| > 0 && (forall b :: b in u.f.order ==> b in u.f.blocks)
    ensures DT.ExactParents(CfgOf(u.f), u.doms) && DC.Climbs(CfgOf(u.f).entry, u.index, u.doms)
    ensures forall b :: b in u.doms ==> b in u.f.blocks
  {
    hide WellFormed, NoneStored, Preorder;
    forall b | b in u.doms
      ensures b in u.f.blocks
    {
      ReachableIsBlock(u.f, b);
    }
  }

  lemma InTree(u: Promotion, b: BlockId)
    ensures b in u.doms <==> CanRun(u.f, b)
  {
    hide WellFormed, NoneStored, Reachable, DC.Climbs, Preorder;
  }

  lemma DominatorsVisited(u: Promotion, w: Walk, b: BlockId, rest: seq<BlockId>)
    requires |u.f.order| > 0 && (forall c :: c in u.f.order ==> c in u.f.blocks)
    requires WalkOk(CfgOf(u.f), u.doms, w) && w.waiting == rest + [b]
    ensures InOrder(u, Place(w.visited, b, 0)) && b in u.doms && b !in w.visited
  {
    hide IsSetup, Dom, DT.ExactParents, Layered, ChildrenWait;
    HasTree(u);
    TopWaits(CfgOf(u.f), u.doms, w, b, rest);
    InTree(u, b);
    ClosedStep(CfgOf(u.f), u.doms, w, b);
    forall d | StrictDom(CfgOf(u.f), d, b)
      ensures d in w.visited
    {
      assert d in w.visited + {b};
    }
  }

  lemma StartBlock(u: Promotion, s: Subst, w: Walk, b: BlockId, rest: seq<BlockId>)
    requires Between(u, s, w) && w.waiting == rest + [b]
    ensures Scanning(u, s, Place(w.visited, b, 0))
  {
    hide IsSetup, ValidFunction, Dom, WalkOk;
    HasGraph(u);
    DominatorsVisited(u, w, b, rest);
    StaysReplaced(u, s, Place(w.visited, 0, 0), Place(w.visited, b, 0));
  }

  lemma FinishBlock(u: Promotion, s: Subst, w: Walk, b: BlockId, rest: seq<BlockId>, children: seq<BlockId>)
    requires |u.f.order| > 0 && (forall c :: c in u.f.order ==> c in u.f.blocks)
    requires WalkOk(CfgOf(u.f), u.doms, w) && w.waiting == rest + [b] && AreChildren(CfgOf(u.f), u.doms, b, children)
    requires b in u.f.blocks && Scanning(u, s, Place(w.visited, b, |u.f.blocks[b]|))
    ensures Between(u, s, Walk(w.visited + {b}, rest + children))
  {
    hide IsSetup, Dom, WalkOk, InOrder, AreChildren;
    Pop(CfgOf(u.f), u.doms, w, b, rest, children);
    StaysReplaced(u, s, Place(w.visited, b, |u.f.blocks[b]|), Place(w.visited + {b}, 0, 0));
  }

  // ---- The function during the walk

  // The function with the inserted phis and the replacements made so far.
  function Now(f: Function, s: Subst, phis: Phis): Function {
    Function(f.order, map b | b in f.blocks :: PhisAt(phis, b) + RenameBlock(s, f.blocks[b]))
  }

  // Every inserted phi is known, has a new identity and stands where it may.
  ghost predicate PhisOk(u: Promotion, phis: Phis, phiVars: map<nat, nat>) {
    && (forall b, k {:trigger PhisAt(phis, b)[k]} :: 0 <= k < |PhisAt(phis, b)| ==>
         PhiOk(u, phiVars, b, PhisAt(phis, b)[k]))
    && (forall id :: id in phiVars ==> id >= u.base && u.vars != {})
  }

  ghost predicate PhiOk(u: Promotion, phiVars: map<nat, nat>, b: BlockId, i: Inst) {
    i.PhiInst? && i.id in phiVars && phiVars[i.id] in u.vars && PhiAllowed(u, phiVars[i.id], b)
  }

  function RenamePhis(s: Subst, phis: Phis): Phis {
    map b | b in phis :: RenameBlock(s, phis[b])
  }

  lemma ExtendPlain(s: Subst, x: nat, v: Value)
    requires x !in s && forall z :: z in s ==> s[z] != Def(x)
    ensures Extend(s, x, v) == s[x := v]
  {
  }

  lemma RenamePhisAt(s: Subst, phis: Phis, b: BlockId)
    ensures PhisAt(RenamePhis(s, phis), b) == RenameBlock(s, PhisAt(phis, b))
  {
    hide RenameBlock;
  }

  lemma RenameNow(f: Function, s: Subst, phis: Phis, x: nat, v: Value)
    requires x !in s && forall z :: z in s ==> s[z] != Def(x)
    ensures RenameFunction(map[x := v], Now(f, s, phis)) == Now(f, s[x := v], RenamePhis(map[x := v], phis))
  {
    hide RenameInst, RenameBlock, Extend, PhisAt, RenamePhis;
    ExtendPlain(s, x, v);
    forall b | b in f.blocks
      ensures RenameBlock(map[x := v], PhisAt(phis, b) + RenameBlock(s, f.blocks[b]))
           == PhisAt(RenamePhis(map[x := v], phis), b) + RenameBlock(s[x := v], f.blocks[b])
    {
      RenameBlockMore(s, x, v, PhisAt(phis, b), f.blocks[b]);
      RenamePhisAt(map[x := v], phis, b);
    }
    assert RenameFunction(map[x := v], Now(f, s, phis)).blocks
      == Now(f, s[x := v], RenamePhis(map[x := v], phis)).blocks;
  }

  lemma RenamedPhisOk(u: Promotion, phis: Phis, phiVars: map<nat, nat>, s: Subst)
    requires PhisOk(u, phis, phiVars)
    ensures PhisOk(u, RenamePhis(s, phis), phiVars) && forall b :: |PhisAt(RenamePhis(s, phis), b)| == |PhisAt(phis, b)|
  {
    hide IsSetup, PhiAllowed, RenameInst;
    forall b, k | 0 <= k < |PhisAt(RenamePhis(s, phis), b)|
      ensures PhiOk(u, phiVars, b, PhisAt(RenamePhis(s, phis), b)[k])
    {
      assert PhiOk(u, phiVars, b, PhisAt(phis, b)[k]);
      PhiRenamed(s, PhisAt(phis, b)[k]);
      assert PhisAt(RenamePhis(s, phis), b)[k] == RenameInst(s, PhisAt(phis, b)[k]);
    }
  }

  lemma PhiRenamed(s: Subst, i: Inst)
    requires i.PhiInst?
    ensures RenameInst(s, i).PhiInst? && RenameInst(s, i).id == i.id
  {
  }

  lemma RenameBlockMore(s: Subst, x: nat, v: Value, a: Block, b: Block)
    requires x !in s && Extend(s, x, v) == s[x := v]
    ensures RenameBlock(map[x := v], a + RenameBlock(s, b)) == RenameBlock(map[x := v], a) + RenameBlock(s[x := v], b)
  {
    hide RenameInst, Extend;
    forall k | 0 <= k < |b|
      ensures RenameInst(map[x := v], RenameInst(s, b[k])) == RenameInst(s[x := v], b[k])
    {
      RenameInstExtend(s, x, v, b[k]);
    }
  }

  // ---- What the stacks hold

  // The phis that the walk started with, and the blocks it has been through, in order.
  datatype Track = Track(phis: Phis, phiVars: map<nat, nat>, order: seq<BlockId>)

  function FlowOf(u: Setup, s: Subst, t: Track): Flow {
    Flow(u.f, s, t.phis, t.phiVars)
  }

  // What the stores push that have been passed is settled.
  ghost predicate SettledStores(u: Setup, s: Subst, h: Place) {
    forall q {:trigger VarStoreAt(u, q)} :: VarStoreAt(u, q) && Passed(h, q) ==>
      Settled(u, s, h, Apply(s, InstAt(u.f, q).val))
  }

  ghost predicate TrackOk(u: Setup, t: Track, visited: set<BlockId>) {
    && (forall b {:trigger b in t.order} {:trigger b in visited} :: b in t.order <==> b in visited)
    && (forall b :: b in visited ==> b in u.f.blocks)
    && (forall id :: id in t.phiVars ==> id >= u.base && u.vars != {})
  }

  // The phi has from each block what was pushed last there.
  ghost predicate PhiHolds(w: Flow, order: seq<BlockId>, d: BlockId, i: Inst) {
    i.PhiInst? && i.id in w.phiVars
      && forall b {:trigger Lookup(i.incoming, b)} :: Lookup(i.incoming, b) == Supplied(w, order, b, d, w.phiVars[i.id])
  }

  ghost predicate PhisHold(w: Flow, order: seq<BlockId>, phis: Phis) {
    forall d, k {:trigger PhisAt(phis, d)[k]} :: d in w.f.blocks && 0 <= k < |PhisAt(phis, d)| ==>
      PhiHolds(w, order, d, PhisAt(phis, d)[k])
  }

  // What has been pushed last where the load of x is.
  function PushedFor(u: Setup, w: Flow, order: seq<BlockId>, x: nat): Option<Value>
    requires x in u.at && Within(u.f, u.at[x]) && IsVarLoad(u.vars, InstAt(u.f, u.at[x]))
  {
    var p := u.at[x];
    PushedWith(w, Before(order, p.block), PhisAt(w.phis, p.block), Prefix(u.f.blocks[p.block], p.index),
      InstAt(u.f, p).ptr.id)
  }

  // The loads that have been passed have been replaced by that, if there was anything.
  ghost predicate LoadsHold(u: Setup, w: Flow, order: seq<BlockId>, h: Place) {
    forall x {:trigger VarLoadAt(u, x)} :: VarLoadAt(u, x) && Passed(h, u.at[x]) ==>
      Lookup(w.s, x) == PushedFor(u, w, order, x)
  }

  ghost predicate Tracking(u: Setup, g: Edits, t: Track, h: Place) {
    && TrackOk(u, t, h.visited) && AllAlike(u.f, g.phis, t.phis) && SettledStores(u, g.s, h)
    && PhisHold(FlowOf(u, g.s, t), t.order, g.phis) && LoadsHold(u, FlowOf(u, g.s, t), t.order, h)
  }

  ghost predicate StacksHold(u: Setup, s: Subst, stacks: Stacks, t: Track, phis: Block, own: Block) {
    forall a {:trigger Top(stacks, a)} :: a in u.vars ==>
      Top(stacks, a) == PushedWith(FlowOf(u, s, t), t.order, phis, own, a)
  }

  function Prefix(b: Block, k: nat): Block {
    if k <= |b| then b[..k] else b
  }

  // How many instructions of its own have been scanned of a block.
  function OwnScanned(t: Track, b: BlockId, j: nat): nat {
    if j <= |PhisAt(t.phis, b)| then 0 else j - |PhisAt(t.phis, b)|
  }

  // The scan of block b has come to position j.
  ghost predicate FlowAt(u: Setup, g: Edits, stacks: Stacks, t: Track, visited: set<BlockId>, b: BlockId, j: nat) {
    var k := OwnScanned(t, b, j);
    && b in u.f.blocks && b !in visited && Tracking(u, g, t, Place(visited, b, k))
    && StacksHold(u, g.s, stacks, t, Prefix(PhisAt(t.phis, b), j), Prefix(u.f.blocks[b], k))
  }

  lemma PrefixNext(b: Block, k: nat)
    requires k < |b|
    ensures Prefix(b, k + 1) == Prefix(b, k) + [b[k]]
  {
  }

  lemma StoreAmong(u: Setup, b: BlockId, k: nat, a: nat) returns (q: Pos)
    requires b in u.f.blocks && a in u.vars && LastStored(Prefix(u.f.blocks[b], k), Alloc(a)).Some?
    ensures VarStoreAt(u, q) && q.block == b && q.index < k
    ensures InstAt(u.f, q).val == LastStored(Prefix(u.f.blocks[b], k), Alloc(a)).value
  {
    var m := LastStoredAt(Prefix(u.f.blocks[b], k), Alloc(a));
    q := Pos(b, m);
  }

  lemma WholePrefix(b: Block)
    ensures Prefix(b, |b|) == b
  {
  }

  lemma PhiSettled(u: Promotion, s: Subst, h: Place, id: nat)
    requires id >= u.base && u.vars != {}
    ensures Settled(u, s, h, Def(id))
  {
    hide IsSetup;
    PromotionFacts(u);
  }

  // The replacements still agree on what is settled.
  ghost predicate Agrees(u: Setup, s: Subst, h: Place, s': Subst) {
    forall w {:trigger Apply(s', w)} :: Settled(u, s, h, Apply(s, w)) ==> Apply(s', w) == Apply(s, w)
  }

  lemma OneMoreAgrees(u: Setup, s: Subst, h: Place, x: nat, v: Value)
    requires x !in s && VarLoadAt(u, x) && !Passed(h, u.at[x])
    ensures Agrees(u, s, h, s[x := v])
  {
    hide Settled, VarLoadAt;
    forall w | Settled(u, s, h, Apply(s, w))
      ensures Apply(s[x := v], w) == Apply(s, w)
    {
      StaysApplied(u, s, h, x, v, w);
    }
  }

  // What a part of a block pushes is settled, so it stays what it is.
  lemma PartSettled(u: Promotion, s: Subst, s': Subst, t: Track, h: Place, phis: Block, b: BlockId, k: nat, a: nat)
    requires TrackOk(u, t, h.visited) && SettledStores(u, s, h) && b in u.f.blocks && a in u.vars && Agrees(u, s, h, s')
    requires b in h.visited || (b == h.b && k <= h.k)
    ensures var r := PushedIn(FlowOf(u, s, t), phis, Prefix(u.f.blocks[b], k), a);
      (r.Some? ==> Settled(u, s, h, r.value)) && PushedIn(FlowOf(u, s', t), phis, Prefix(u.f.blocks[b], k), a) == r
  {
    hide IsSetup, Settled, LastStored, PhiFor;
    var own := Prefix(u.f.blocks[b], k);
    if LastStored(own, Alloc(a)).Some? {
      var q := StoreAmong(u, b, k, a);
    } else if PhiFor(phis, t.phiVars, a).Some? {
      PhiForIn(phis, t.phiVars, a);
      PhiSettled(u, s, h, PhiFor(phis, t.phiVars, a).value);
    }
  }

  lemma {:induction false} PushedSettled(u: Promotion, s: Subst, s': Subst, t: Track, h: Place, order: seq<BlockId>,
      a: nat)
    requires TrackOk(u, t, h.visited) && SettledStores(u, s, h) && a in u.vars && Agrees(u, s, h, s')
    requires forall b :: b in order ==> b in h.visited
    ensures var r := Pushed(FlowOf(u, s, t), order, a);
      (r.Some? ==> Settled(u, s, h, r.value)) && Pushed(FlowOf(u, s', t), order, a) == r
    decreases |order|
  {
    hide IsSetup, Settled, PushedIn, SettledStores, Agrees;
    if order != [] {
      var b := order[|order| - 1];
      PushedSettled(u, s, s', t, h, order[..|order| - 1], a);
      WholePrefix(u.f.blocks[b]);
      PartSettled(u, s, s', t, h, PhisAt(t.phis, b), b, |u.f.blocks[b]|, a);
    }
  }

  lemma WithSettled(u: Promotion, s: Subst, s': Subst, t: Track, h: Place, order: seq<BlockId>, phis: Block, b: BlockId,
      k: nat, a: nat)
    requires TrackOk(u, t, h.visited) && SettledStores(u, s, h) && b in u.f.blocks && a in u.vars && Agrees(u, s, h, s')
    requires (b in h.visited || (b == h.b && k <= h.k)) && forall c :: c in order ==> c in h.visited
    ensures var r := PushedWith(FlowOf(u, s, t), order, phis, Prefix(u.f.blocks[b], k), a);
      (r.Some? ==> Settled(u, s, h, r.value))
        && PushedWith(FlowOf(u, s', t), order, phis, Prefix(u.f.blocks[b], k), a) == r
  {
    hide IsSetup, Settled, PushedIn, Pushed, SettledStores, Agrees, TrackOk;
    PartSettled(u, s, s', t, h, phis, b, k, a);
    PushedSettled(u, s, s', t, h, order, a);
  }

  lemma {:induction false} PushedBySettled(u: Promotion, s: Subst, s': Subst, t: Track, h: Place, order: seq<BlockId>,
      b: BlockId, a: nat)
    requires TrackOk(u, t, h.visited) && SettledStores(u, s, h) && a in u.vars && Agrees(u, s, h, s')
    requires forall c :: c in order ==> c in h.visited
    ensures var r := PushedBy(FlowOf(u, s, t), order, b, a);
      (r.Some? ==> Settled(u, s, h, r.value)) && PushedBy(FlowOf(u, s', t), order, b, a) == r
    decreases |order|
  {
    hide IsSetup, Settled, Pushed, SettledStores, Agrees;
    if order != [] {
      PushedSettled(u, s, s', t, h, order, a);
      PushedBySettled(u, s, s', t, h, order[..|order| - 1], b, a);
    }
  }

  // ---- Each step of the scan

  lemma PhiPushed(w: Flow, order: seq<BlockId>, phis: Block, j: nat, own: Block, i: Inst, a: nat)
    requires j < |phis| && i.PhiInst? && i.id in w.phiVars && phis[j].PhiInst? && phis[j].id == i.id
    ensures PushedWith(w, order, Prefix(phis, j + 1), Prefix(own, 0), a)
         == if w.phiVars[i.id] == a then Some(Def(i.id)) else PushedWith(w, order, Prefix(phis, j), Prefix(own, 0), a)
  {
    hide Pushed, PhiFor, LastStored, Prefix;
    PrefixNext(phis, j);
    PhiForNext(Prefix(phis, j), w.phiVars, phis[j], a);
    NothingPushed(own, phis, w.phiVars);
  }

  lemma PhiTracked(u: Promotion, g: Edits, stacks: Stacks, t: Track, visited: set<BlockId>, b: BlockId, j: nat, i: Inst)
    requires FlowAt(u, g, stacks, t, visited, b, j) && j < |PhisAt(t.phis, b)| && i.PhiInst? && i.id in t.phiVars
    requires PhisAt(t.phis, b)[j].PhiInst? && PhisAt(t.phis, b)[j].id == i.id
    ensures FlowAt(u, g, Push(stacks, t.phiVars[i.id], Def(i.id)), t, visited, b, j + 1)
  {
    hide IsSetup, Tracking, Push, PushedWith, Prefix, Top;
    var phis, stacks' := PhisAt(t.phis, b), Push(stacks, t.phiVars[i.id], Def(i.id));
    forall a | a in u.vars
      ensures Top(stacks', a)
           == PushedWith(FlowOf(u, g.s, t), t.order, Prefix(phis, j + 1), Prefix(u.f.blocks[b], 0), a)
    {
      PhiPushed(FlowOf(u, g.s, t), t.order, phis, j, u.f.blocks[b], i, a);
    }
  }

  // The next instruction of the block's own.
  lemma OwnNext(t: Track, b: BlockId, j: nat, own: Block)
    requires |PhisAt(t.phis, b)| <= j && OwnScanned(t, b, j) < |own|
    ensures OwnScanned(t, b, j + 1) == OwnScanned(t, b, j) + 1
    ensures Prefix(own, OwnScanned(t, b, j + 1)) == Prefix(own, OwnScanned(t, b, j)) + [own[OwnScanned(t, b, j)]]
    ensures Prefix(PhisAt(t.phis, b), j + 1) == Prefix(PhisAt(t.phis, b), j)
  {
  }

  lemma StoresNext(u: Setup, s: Subst, visited: set<BlockId>, b: BlockId, k: nat)
    requires SettledStores(u, s, Place(visited, b, k))
    requires VarStoreAt(u, Pos(b, k)) ==> Settled(u, s, Place(visited, b, k), Apply(s, InstAt(u.f, Pos(b, k)).val))
    ensures SettledStores(u, s, Place(visited, b, k + 1))
  {
    hide Settled;
    var h, h' := Place(visited, b, k), Place(visited, b, k + 1);
    forall q | VarStoreAt(u, q) && Passed(h', q)
      ensures Settled(u, s, h', Apply(s, InstAt(u.f, q).val))
    {
      if q != Pos(b, k) {
        assert Passed(h, q);
      }
      StaysSettled(u, s, h, h', Apply(s, InstAt(u.f, q).val));
    }
  }

  lemma {:induction false} BeforeNew(order: seq<BlockId>, b: BlockId)
    requires b !in order
    ensures Before(order, b) == order
  {
    if order != [] {
      BeforeNew(order[1..], b);
    }
  }

  lemma {:induction false} BeforeMore(order: seq<BlockId>, c: BlockId, b: BlockId)
    requires b in order
    ensures Before(order + [c], b) == Before(order, b)
  {
    if order[0] != b {
      assert (order + [c])[1..] == order[1..] + [c];
      BeforeMore(order[1..], c, b);
    }
  }

  lemma {:induction false} BeforeInside(order: seq<BlockId>, b: BlockId)
    ensures forall c :: c in Before(order, b) ==> c in order
  {
    if order != [] {
      BeforeInside(order[1..], b);
    }
  }

  lemma LoadsNext(u: Promotion, w: Flow, order: seq<BlockId>, visited: set<BlockId>, b: BlockId, k: nat)
    requires LoadsHold(u, w, order, Place(visited, b, k)) && b !in order
    requires forall x {:trigger VarLoadAt(u, x)} :: VarLoadAt(u, x) && u.at[x] == Pos(b, k) ==>
      Lookup(w.s, x) == PushedFor(u, w, order, x)
    ensures LoadsHold(u, w, order, Place(visited, b, k + 1))
  {
    hide IsSetup, PushedFor;
    forall x | VarLoadAt(u, x) && Passed(Place(visited, b, k + 1), u.at[x])
      ensures Lookup(w.s, x) == PushedFor(u, w, order, x)
    {
      if u.at[x] != Pos(b, k) {
        assert Passed(Place(visited, b, k), u.at[x]);
      }
    }
  }

  // What has been pushed last for the next instruction, a load.
  lemma PushedHere(u: Promotion, g: Edits, stacks: Stacks, t: Track, visited: set<BlockId>, b: BlockId, j: nat, x: nat)
    requires FlowAt(u, g, stacks, t, visited, b, j) && |PhisAt(t.phis, b)| <= j
    requires VarLoadAt(u, x) && u.at[x] == Pos(b, OwnScanned(t, b, j))
    ensures Top(stacks, InstAt(u.f, u.at[x]).ptr.id) == PushedFor(u, FlowOf(u, g.s, t), t.order, x)
  {
    hide IsSetup, PushedWith, Top, SettledStores, PhisHold, AllAlike, LoadsHold;
    BeforeNew(t.order, b);
    assert Prefix(PhisAt(t.phis, b), j) == PhisAt(t.phis, b);
  }

  // An instruction that changes neither the stacks nor the replacements.
  lemma OtherTracked(u: Promotion, g: Edits, stacks: Stacks, t: Track, visited: set<BlockId>, b: BlockId, j: nat)
    requires FlowAt(u, g, stacks, t, visited, b, j) && |PhisAt(t.phis, b)| <= j
    requires OwnScanned(t, b, j) < |u.f.blocks[b]| && !VarStoreAt(u, Pos(b, OwnScanned(t, b, j)))
    requires forall x {:trigger VarLoadAt(u, x)} :: VarLoadAt(u, x) && u.at[x] == Pos(b, OwnScanned(t, b, j)) ==>
      Lookup(g.s, x) == PushedFor(u, FlowOf(u, g.s, t), t.order, x)
    ensures FlowAt(u, g, stacks, t, visited, b, j + 1)
  {
    hide IsSetup, Pushed, PhiFor, LastStored, SettledStores, PhisHold, AllAlike, Top, LoadsHold, PushedFor,
      VarLoadAt;
    var k, own := OwnScanned(t, b, j), u.f.blocks[b];
    OwnNext(t, b, j, own);
    StoresNext(u, g.s, visited, b, k);
    LoadsNext(u, FlowOf(u, g.s, t), t.order, visited, b, k);
    forall a | a in u.vars
      ensures LastStored(Prefix(own, k + 1), Alloc(a)) == LastStored(Prefix(own, k), Alloc(a))
    {
      LastStoredNext(Prefix(own, k), own[k], Alloc(a));
    }
  }

  lemma StoreTracked(u: Promotion, g: Edits, stacks: Stacks, t: Track, visited: set<BlockId>, b: BlockId, j: nat,
      p: Pos, v: Value)
    requires FlowAt(u, g, stacks, t, visited, b, j) && |PhisAt(t.phis, b)| <= j
    requires p == Pos(b, OwnScanned(t, b, j)) && VarStoreAt(u, p) && v == Apply(g.s, InstAt(u.f, p).val)
    requires Settled(u, g.s, Place(visited, b, p.index), v)
    ensures FlowAt(u, g, Push(stacks, InstAt(u.f, p).ptr.id, v), t, visited, b, j + 1)
  {
    hide IsSetup, Pushed, PhiFor, LastStored, SettledStores, PhisHold, AllAlike, Push, Settled, LoadsHold, PushedFor;
    var k, own := OwnScanned(t, b, j), u.f.blocks[b];
    OwnNext(t, b, j, own);
    StoresNext(u, g.s, visited, b, k);
    LoadsNext(u, FlowOf(u, g.s, t), t.order, visited, b, k);
    forall a
      ensures LastStored(Prefix(own, k + 1), Alloc(a))
           == if InstAt(u.f, p).ptr == Alloc(a) then Some(InstAt(u.f, p).val) else LastStored(Prefix(own, k), Alloc(a))
    {
      LastStoredNext(Prefix(own, k), own[k], Alloc(a));
    }
  }

  // Replacing a load leaves the values of a phi alone, for none of them is a load that is still to come.
  lemma PhiUnchanged(u: Promotion, s: Subst, t: Track, h: Place, d: BlockId, i: Inst, x: nat, v: Value)
    requires TrackOk(u, t, h.visited) && SettledStores(u, s, h) && PhiHolds(FlowOf(u, s, t), t.order, d, i)
    requires x !in s && VarLoadAt(u, x) && !Passed(h, u.at[x]) && t.phiVars[i.id] in u.vars
    ensures PhiHolds(FlowOf(u, s[x := v], t), t.order, d, RenameInst(One(x, v), i))
  {
    hide IsSetup, SettledStores, PushedBy, Settled, IsEdge, Agrees;
    var a := t.phiVars[i.id];
    OneMoreAgrees(u, s, h, x, v);
    forall b
      ensures Supplied(FlowOf(u, s[x := v], t), t.order, b, d, a) == Supplied(FlowOf(u, s, t), t.order, b, d, a)
      ensures b in i.incoming ==> Settled(u, s, h, i.incoming[b])
    {
      PushedBySettled(u, s, s[x := v], t, h, t.order, b, a);
      assert Lookup(i.incoming, b) == Supplied(FlowOf(u, s, t), t.order, b, d, a);
    }
    forall b | b in i.incoming
      ensures Apply(One(x, v), i.incoming[b]) == i.incoming[b]
    {
      NotTheLoad(u, s, h, x, v, i.incoming[b]);
    }
    assert RenameInst(One(x, v), i).incoming == i.incoming;
  }

  lemma NotTheLoad(u: Setup, s: Subst, h: Place, x: nat, v: Value, w: Value)
    requires VarLoadAt(u, x) && !Passed(h, u.at[x]) && Settled(u, s, h, w)
    ensures Apply(One(x, v), w) == w
  {
  }

  lemma PhisUnchanged(u: Promotion, g: Edits, t: Track, h: Place, x: nat, v: Value)
    requires Tracking(u, g, t, h) && PhisOk(u, g.phis, t.phiVars)
    requires x !in g.s && VarLoadAt(u, x) && !Passed(h, u.at[x])
    ensures var g' := Edits(g.s[x := v], RenamePhis(One(x, v), g.phis));
      PhisHold(FlowOf(u, g'.s, t), t.order, g'.phis) && AllAlike(u.f, g'.phis, t.phis)
  {
    hide IsSetup, SettledStores, PhiAllowed, PhiHolds, TrackOk, RenameInst, One, Supplied, LoadsHold;
    var g' := Edits(g.s[x := v], RenamePhis(One(x, v), g.phis));
    forall d | d in u.f.blocks
      ensures PhisAt(g'.phis, d) == RenameBlock(One(x, v), PhisAt(g.phis, d))
      ensures AlikePhis(PhisAt(g'.phis, d), PhisAt(t.phis, d))
    {
      RenamePhisAt(One(x, v), g.phis, d);
      RenamedAlike(One(x, v), PhisAt(g.phis, d), PhisAt(t.phis, d));
    }
    forall d, k | d in u.f.blocks && 0 <= k < |PhisAt(g'.phis, d)|
      ensures PhiHolds(FlowOf(u, g'.s, t), t.order, d, PhisAt(g'.phis, d)[k])
    {
      var i := PhisAt(g.phis, d)[k];
      assert PhiOk(u, t.phiVars, d, i);
      PhiUnchanged(u, g.s, t, h, d, i, x, v);
      assert PhisAt(g'.phis, d)[k] == RenameInst(One(x, v), i);
    }
  }

  lemma RenamedAlike(s: Subst, a: Block, b: Block)
    requires AlikePhis(a, b)
    ensures AlikePhis(RenameBlock(s, a), b)
  {
    hide RenameInst;
    forall k | 0 <= k < |a|
      ensures RenameBlock(s, a)[k].PhiInst? && RenameBlock(s, a)[k].id == a[k].id
    {
      PhiRenamed(s, a[k]);
    }
  }

  // Settled values stay so when a load is replaced that is just being passed.
  lemma SettledAfter(u: Setup, s: Subst, h: Place, x: nat, v: Value, w: Value)
    requires Settled(u, s, h, w) && VarLoadAt(u, x) && !Passed(h, u.at[x])
    ensures Settled(u, s[x := v], h, w)
  {
  }

  lemma StoresAfter(u: Setup, s: Subst, h: Place, x: nat, v: Value)
    requires SettledStores(u, s, h) && x !in s && VarLoadAt(u, x) && !Passed(h, u.at[x])
    ensures SettledStores(u, s[x := v], h)
  {
    hide Settled;
    forall q | VarStoreAt(u, q) && Passed(h, q)
      ensures Settled(u, s[x := v], h, Apply(s[x := v], InstAt(u.f, q).val))
    {
      StaysApplied(u, s, h, x, v, InstAt(u.f, q).val);
      SettledAfter(u, s, h, x, v, Apply(s, InstAt(u.f, q).val));
    }
  }

  lemma StacksUnchanged(u: Promotion, g: Edits, stacks: Stacks, t: Track, h: Place, phis: Block, x: nat, v: Value)
    requires Tracking(u, g, t, h) && h.b in u.f.blocks && x !in g.s && VarLoadAt(u, x) && !Passed(h, u.at[x])
    requires StacksHold(u, g.s, stacks, t, phis, Prefix(u.f.blocks[h.b], h.k))
    ensures StacksHold(u, g.s[x := v], stacks, t, phis, Prefix(u.f.blocks[h.b], h.k))
  {
    hide IsSetup, SettledStores, PhisHold, PushedWith, Top, Settled, AllAlike, Agrees, LoadsHold;
    OneMoreAgrees(u, g.s, h, x, v);
    forall a | a in u.vars
      ensures PushedWith(FlowOf(u, g.s[x := v], t), t.order, phis, Prefix(u.f.blocks[h.b], h.k), a)
           == PushedWith(FlowOf(u, g.s, t), t.order, phis, Prefix(u.f.blocks[h.b], h.k), a)
    {
      WithSettled(u, g.s, g.s[x := v], t, h, t.order, phis, h.b, h.k, a);
    }
  }

  // What was pushed for a load that has been passed, or is just being passed, stays what it is.
  lemma LoadUnchanged(u: Promotion, g: Edits, t: Track, h: Place, x: nat, v: Value, z: nat)
    requires Tracking(u, g, t, h) && x !in g.s && VarLoadAt(u, x) && !Passed(h, u.at[x]) && VarLoadAt(u, z)
    requires Passed(h, u.at[z]) || u.at[z] == Pos(h.b, h.k)
    ensures PushedFor(u, FlowOf(u, g.s[x := v], t), t.order, z) == PushedFor(u, FlowOf(u, g.s, t), t.order, z)
    ensures var r := PushedFor(u, FlowOf(u, g.s, t), t.order, z); r.Some? ==> Settled(u, g.s, h, r.value)
  {
    hide IsSetup, SettledStores, PhisHold, PushedWith, Settled, AllAlike, Agrees, LoadsHold;
    OneMoreAgrees(u, g.s, h, x, v);
    var p := u.at[z];
    BeforeInside(t.order, p.block);
    WithSettled(u, g.s, g.s[x := v], t, h, Before(t.order, p.block), PhisAt(t.phis, p.block), p.block, p.index,
      InstAt(u.f, p).ptr.id);
  }

  lemma LoadsAfter(u: Promotion, g: Edits, t: Track, h: Place, x: nat, v: Value)
    requires Tracking(u, g, t, h) && x !in g.s && VarLoadAt(u, x) && !Passed(h, u.at[x])
    ensures LoadsHold(u, FlowOf(u, g.s[x := v], t), t.order, h)
  {
    hide IsSetup, SettledStores, PhisHold, PushedFor, Settled, AllAlike, Agrees, TrackOk;
    forall z | VarLoadAt(u, z) && Passed(h, u.at[z])
      ensures Lookup(g.s[x := v], z) == PushedFor(u, FlowOf(u, g.s[x := v], t), t.order, z)
    {
      LoadUnchanged(u, g, t, h, x, v, z);
    }
  }

  // A load that is replaced by what has been pushed last.
  lemma LoadTracked(u: Promotion, g: Edits, stacks: Stacks, t: Track, visited: set<BlockId>, b: BlockId, j: nat, x: nat,
      v: Value)
    requires FlowAt(u, g, stacks, t, visited, b, j) && |PhisAt(t.phis, b)| <= j && PhisOk(u, g.phis, t.phiVars)
    requires OwnScanned(t, b, j) < |u.f.blocks[b]| && x !in g.s && VarLoadAt(u, x)
    requires u.at[x] == Pos(b, OwnScanned(t, b, j)) && Top(stacks, InstAt(u.f, u.at[x]).ptr.id) == Some(v)
    requires forall z :: VarLoadAt(u, z) && u.at[z] == u.at[x] ==> z == x
    ensures FlowAt(u, Edits(g.s[x := v], RenamePhis(One(x, v), g.phis)), stacks, t, visited, b, j + 1)
  {
    hide IsSetup, SettledStores, PhisHold, StacksHold, AllAlike, PhisOk, RenamePhis, TrackOk, LoadsHold, PushedFor;
    var h, g' := Place(visited, b, OwnScanned(t, b, j)), Edits(g.s[x := v], RenamePhis(One(x, v), g.phis));
    assert !Passed(h, u.at[x]);
    PhisUnchanged(u, g, t, h, x, v);
    StoresAfter(u, g.s, h, x, v);
    StacksUnchanged(u, g, stacks, t, h, Prefix(PhisAt(t.phis, b), j), x, v);
    LoadsAfter(u, g, t, h, x, v);
    assert FlowAt(u, g', stacks, t, visited, b, j);
    PushedHere(u, g', stacks, t, visited, b, j, x);
    OtherTracked(u, g', stacks, t, visited, b, j);
  }

  // ---- Scanning one block

  // Where the scan of a block with its phis in front has come to.
  ghost predicate ScanAt(u: Promotion, s: Subst, phis: Phis, visited: set<BlockId>, b: BlockId, j: nat) {
    var np := |PhisAt(phis, b)|;
    Scanning(u, s, Place(visited, b, if j <= np then 0 else j - np))
  }

  // The replacements and the phis so far.
  datatype Edits = Edits(s: Subst, phis: Phis)

  ghost predicate Holding(u: Promotion, now: Function, g: Edits, phiVars: map<nat, nat>) {
    now == Now(u.f, g.s, g.phis) && PhisOk(u, g.phis, phiVars)
  }

  // The instruction at position j of the current block.
  lemma CurrentInst(u: Promotion, now: Function, g: Edits, phiVars: map<nat, nat>, b: BlockId, j: nat)
    requires Holding(u, now, g, phiVars) && b in u.f.blocks && b in now.blocks && j < |now.blocks[b]|
    ensures var np := |PhisAt(g.phis, b)|;
      && |now.blocks[b]| == np + |u.f.blocks[b]|
      && (j < np ==> now.blocks[b][j] == PhisAt(g.phis, b)[j] && PhiOk(u, phiVars, b, now.blocks[b][j]))
      && (j >= np ==> now.blocks[b][j] == RenameInst(g.s, u.f.blocks[b][j - np]))
  {
    hide IsSetup, PhiOk, RenameInst;
  }

  // An instruction of the function is not one of the inserted phis, and keeps its pointer.
  lemma OwnInst(u: Promotion, g: Edits, phiVars: map<nat, nat>, p: Pos, i: Inst)
    requires PhisOk(u, g.phis, phiVars) && Within(u.f, p) && i == RenameInst(g.s, InstAt(u.f, p))
    requires AvoidsVars(u.vars, g.s)
    ensures !(i.PhiInst? && i.id in phiVars)
    ensures IsVarLoad(u.vars, i) <==> IsVarLoad(u.vars, InstAt(u.f, p))
    ensures IsVarStore(u.vars, i) <==> IsVarStore(u.vars, InstAt(u.f, p))
    ensures IsVarLoad(u.vars, i) ==> i.ptr == InstAt(u.f, p).ptr && i.id == InstAt(u.f, p).id
    ensures IsVarStore(u.vars, i) ==> i.ptr == InstAt(u.f, p).ptr && i.val == Apply(g.s, InstAt(u.f, p).val)
  {
    hide IsSetup, PhiOk;
    if u.vars != {} {
      OwnPhi(u, p);
    }
  }

  lemma OwnPhi(u: Promotion, p: Pos)
    requires Within(u.f, p) && u.vars != {}
    ensures InstAt(u.f, p).PhiInst? ==> InstAt(u.f, p).id < u.base
  {
    hide OperandsAvail, IncomingAvail, ValidFunction, NoneStored, IsSetup;
    PromotionFacts(u);
  }

  lemma NoAddresses(u: Promotion, s: Subst, h: Place)
    requires Scanning(u, s, h)
    ensures AvoidsVars(u.vars, s)
  {
    hide IsSetup, InOrder;
  }

  // What the scan does at an instruction of the function itself.
  lemma StepOwn(u: Promotion, now: Function, g: Edits, phiVars: map<nat, nat>, visited: set<BlockId>, b: BlockId,
      j: nat, i: Inst)
      returns (p: Pos)
    requires Holding(u, now, g, phiVars) && ScanAt(u, g.s, g.phis, visited, b, j) && b in u.f.blocks
    requires b in now.blocks
    requires |PhisAt(g.phis, b)| <= j < |now.blocks[b]| && i == now.blocks[b][j]
    ensures p == Pos(b, j - |PhisAt(g.phis, b)|) && Within(u.f, p)
    ensures Scanning(u, g.s, Place(visited, b, p.index))
    ensures !(i.PhiInst? && i.id in phiVars) && (IsVarLoad(u.vars, i) <==> IsVarLoad(u.vars, InstAt(u.f, p)))
    ensures IsVarStore(u.vars, i) <==> VarStoreAt(u, p)
    ensures IsVarLoad(u.vars, i) ==> i.ptr == InstAt(u.f, p).ptr && i.id == InstAt(u.f, p).id
    ensures IsVarStore(u.vars, i) ==> i.ptr == InstAt(u.f, p).ptr && i.val == Apply(g.s, InstAt(u.f, p).val)
  {
    hide IsSetup, PhisOk, Scanning, RenameInst;
    CurrentInst(u, now, g, phiVars, b, j);
    p := Pos(b, j - |PhisAt(g.phis, b)|);
    NoAddresses(u, g.s, Place(visited, b, p.index));
    OwnInst(u, g, phiVars, p, i);
  }

  function One(x: nat, v: Value): Subst {
    map[x := v]
  }

  // What has been pushed last for a load is settled.
  lemma TopSettled(u: Promotion, g: Edits, stacks: Stacks, t: Track, visited: set<BlockId>, b: BlockId, j: nat, a: nat)
    requires FlowAt(u, g, stacks, t, visited, b, j) && a in u.vars && Top(stacks, a).Some?
    ensures Settled(u, g.s, Place(visited, b, OwnScanned(t, b, j)), Top(stacks, a).value)
  {
    hide IsSetup, SettledStores, PhisHold, PushedWith, Settled, AllAlike, LoadsHold, Top;
    var h := Place(visited, b, OwnScanned(t, b, j));
    assert Agrees(u, g.s, h, g.s);
    WithSettled(u, g.s, g.s, t, h, t.order, Prefix(PhisAt(t.phis, b), j), b, h.k, a);
  }

  // A load is replaced by the top of its stack.
  lemma StepLoad(u: Promotion, g: Edits, phiVars: map<nat, nat>, h: Place, p: Pos, x: nat, v: Value, now: Function)
      returns (g': Edits)
    requires Holding(u, now, g, phiVars) && Scanning(u, g.s, h) && p == Pos(h.b, h.k)
    requires Within(u.f, p) && IsVarLoad(u.vars, InstAt(u.f, p)) && InstAt(u.f, p).id == x
    requires Settled(u, g.s, h, v)
    ensures Holding(u, RenameFunction(One(x, v), now), g', phiVars)
    ensures forall b :: |PhisAt(g'.phis, b)| == |PhisAt(g.phis, b)|
    ensures Scanning(u, g'.s, h.(k := h.k + 1))
    ensures g' == Edits(g.s[x := v], RenamePhis(One(x, v), g.phis))
  {
    hide IsSetup, Scanning, PhisOk, Now, RenamePhis, RenameFunction, VarLoadAt, WellFormed, Settled;
    ScanLoad(u, g.s, h, p, x, v);
    g' := Edits(g.s[x := v], RenamePhis(map[x := v], g.phis));
    ValuesAvoid(u, g.s, h, x);
    RenameNow(u.f, g.s, g.phis, x, v);
    RenamedPhisOk(u, g.phis, phiVars, map[x := v]);
  }

  // No replacement so far leads to a load that is still to come.
  lemma ValuesAvoid(u: Promotion, s: Subst, h: Place, x: nat)
    requires Scanning(u, s, h) && VarLoadAt(u, x) && !Passed(h, u.at[x])
    ensures forall z :: z in s ==> s[z] != Def(x)
  {
    hide IsSetup, InOrder;
  }

  // The phi at position j, as it was inserted.
  lemma TrackedPhi(u: Promotion, now: Function, g: Edits, phiVars: map<nat, nat>, stacks: Stacks, t: Track,
      visited: set<BlockId>, b: BlockId, j: nat)
    requires Holding(u, now, g, phiVars) && FlowAt(u, g, stacks, t, visited, b, j) && b in now.blocks
    ensures |PhisAt(t.phis, b)| == |PhisAt(g.phis, b)| && |now.blocks[b]| == |PhisAt(t.phis, b)| + |u.f.blocks[b]|
    ensures j < |PhisAt(t.phis, b)| ==>
        PhisAt(t.phis, b)[j].PhiInst? && PhisAt(t.phis, b)[j].id == PhisAt(g.phis, b)[j].id
        && now.blocks[b][j] == PhisAt(g.phis, b)[j] && PhisAt(g.phis, b)[j].PhiInst?
    ensures PhisOk(u, g.phis, phiVars)
  {
    hide IsSetup, PhisOk, PhisHold, SettledStores, StacksHold, RenameInst, LoadsHold;
    assert AlikePhis(PhisAt(g.phis, b), PhisAt(t.phis, b));
  }

  lemma PhiStep(u: Promotion, now: Function, g: Edits, phiVars: map<nat, nat>, visited: set<BlockId>, b: BlockId,
      j: nat, i: Inst)
    requires Holding(u, now, g, phiVars) && ScanAt(u, g.s, g.phis, visited, b, j) && b in u.f.blocks && b in now.blocks
    requires j < |PhisAt(g.phis, b)| && j < |now.blocks[b]| && i == now.blocks[b][j]
    ensures i.PhiInst? && i.id in phiVars && ScanAt(u, g.s, g.phis, visited, b, j + 1)
  {
    hide IsSetup, PhisOk, Scanning, PhiAllowed;
    CurrentInst(u, now, g, phiVars, b, j);
  }

  // A load for which nothing has been pushed.
  lemma LoadSkipped(u: Promotion, g: Edits, stacks: Stacks, t: Track, visited: set<BlockId>, b: BlockId, j: nat, x: nat)
    requires FlowAt(u, g, stacks, t, visited, b, j) && |PhisAt(t.phis, b)| <= j
    requires OwnScanned(t, b, j) < |u.f.blocks[b]| && x !in g.s && VarLoadAt(u, x)
    requires u.at[x] == Pos(b, OwnScanned(t, b, j)) && Top(stacks, InstAt(u.f, u.at[x]).ptr.id) == None
    requires forall z :: VarLoadAt(u, z) && u.at[z] == u.at[x] ==> z == x
    ensures FlowAt(u, g, stacks, t, visited, b, j + 1)
  {
    hide IsSetup, FlowAt, PushedFor, OwnScanned;
    PushedHere(u, g, stacks, t, visited, b, j, x);
    OtherTracked(u, g, stacks, t, visited, b, j);
  }

  lemma NotYetReplaced(u: Promotion, s: Subst, h: Place, p: Pos, x: nat)
    requires Scanning(u, s, h) && p == Pos(h.b, h.k) && Within(u.f, p) && IsVarLoad(u.vars, InstAt(u.f, p))
    requires x == InstAt(u.f, p).id
    ensures x !in s && VarLoadAt(u, x) && u.at[x] == p
    ensures forall z :: VarLoadAt(u, z) && u.at[z] == p ==> z == x
  {
    hide IsSetup, WellFormed, Settled;
    LoadPlace(u, p, x);
    NotPassedHere(h, p);
  }

  method ScanInst(target: FunctionObject, b: BlockId, j: nat, vars: set<nat>, phiVars: map<nat, nat>, stacks: Stacks,
                  ghost u: Promotion, ghost g: Edits, ghost visited: set<BlockId>, ghost t: Track)
                      returns (stacks': Stacks, ghost g': Edits)
    requires Holding(u, target.fn, g, phiVars) && ScanAt(u, g.s, g.phis, visited, b, j) && vars == u.vars
    requires b in u.f.blocks && b in target.fn.blocks && j < |target.fn.blocks[b]|
    requires FlowAt(u, g, stacks, t, visited, b, j) && t.phiVars == phiVars
    modifies target
    ensures Holding(u, target.fn, g', phiVars) && ScanAt(u, g'.s, g'.phis, visited, b, j + 1)
    ensures b in target.fn.blocks && |target.fn.blocks[b]| == |old(target.fn).blocks[b]|
    ensures forall c :: |PhisAt(g'.phis, c)| == |PhisAt(g.phis, c)|
    ensures FlowAt(u, g', stacks', t, visited, b, j + 1)
  {
    hide IsSetup, PhisOk, Scanning, Push, RenameFunction, Now, FlowAt, RenamePhis, VarLoadAt, Settled, PushedFor;
    g' := g;
    stacks' := stacks;
    var inst := target.fn.blocks[b][j];
    ghost var p, h := Pos(0, 0), Place(visited, b, OwnScanned(t, b, j));
    TrackedPhi(u, target.fn, g, phiVars, stacks, t, visited, b, j);
    if j < |PhisAt(g.phis, b)| {
      PhiStep(u, target.fn, g, phiVars, visited, b, j, inst);
      PhiTracked(u, g, stacks, t, visited, b, j, inst);
    } else {
      p := StepOwn(u, target.fn, g, phiVars, visited, b, j, inst);
      ScanOn(u, g.s, h);
    }
    if IsVarLoad(vars, inst) {
      NotYetReplaced(u, g.s, h, p, inst.id);
      // Nothing is propagated if there is no definition.
      var top := Top(stacks, inst.ptr.id);
      if top.Some? {
        TopSettled(u, g, stacks, t, visited, b, j, inst.ptr.id);
        g' := StepLoad(u, g, phiVars, h, p, inst.id, top.value, target.fn);
        LoadTracked(u, g, stacks, t, visited, b, j, inst.id, top.value);
        target.ReplaceAllUses(inst.id, top.value);
        KeepsLengths(old(target.fn), inst.id, top.value, b);
      } else {
        LoadSkipped(u, g, stacks, t, visited, b, j, inst.id);
      }
    } else if inst.PhiInst? && inst.id in phiVars {
      stacks' := Push(stacks, phiVars[inst.id], Def(inst.id));
    } else if IsVarStore(vars, inst) {
      stacks' := Push(stacks, inst.ptr.id, inst.val);
      OperandSettled(u, g.s, h, p);
      StoreTracked(u, g, stacks, t, visited, b, j, p, inst.val);
    } else {
      NoLoadHere(u, p);
      OtherTracked(u, g, stacks, t, visited, b, j);
    }
  }

  lemma NoLoadHere(u: Promotion, p: Pos)
    requires Within(u.f, p) && !IsVarLoad(u.vars, InstAt(u.f, p))
    ensures forall x :: VarLoadAt(u, x) ==> u.at[x] != p
  {
    hide IsSetup;
  }

  lemma KeepsLengths(f: Function, x: nat, v: Value, b: BlockId)
    requires b in f.blocks
    ensures b in RenameFunction(map[x := v], f).blocks && |RenameFunction(map[x := v], f).blocks[b]| == |f.blocks[b]|
  {
  }

  lemma HoldingBlock(u: Promotion, now: Function, g: Edits, phiVars: map<nat, nat>, b: BlockId)
    requires Holding(u, now, g, phiVars) && b in u.f.blocks
    ensures b in now.blocks && |now.blocks[b]| == |PhisAt(g.phis, b)| + |u.f.blocks[b]|
  {
  }

  lemma ScanBegins(u: Promotion, s: Subst, phis: Phis, visited: set<BlockId>, b: BlockId)
    requires Scanning(u, s, Place(visited, b, 0))
    ensures ScanAt(u, s, phis, visited, b, 0) && b !in visited
  {
    hide Replaced, IsSetup;
  }

  lemma ScanEnds(u: Promotion, s: Subst, phis: Phis, visited: set<BlockId>, b: BlockId, j: nat)
    requires b in u.f.blocks && j == |PhisAt(phis, b)| + |u.f.blocks[b]| && ScanAt(u, s, phis, visited, b, j)
    ensures Scanning(u, s, Place(visited, b, |u.f.blocks[b]|))
  {
    hide Scanning;
  }

  // The stacks hold what has been pushed by the blocks.
  ghost predicate StacksThrough(u: Setup, s: Subst, stacks: Stacks, t: Track, order: seq<BlockId>) {
    forall a {:trigger Top(stacks, a)} :: a in u.vars ==> Top(stacks, a) == Pushed(FlowOf(u, s, t), order, a)
  }

  // Between two blocks.
  ghost predicate Flowing(u: Setup, g: Edits, stacks: Stacks, t: Track, visited: set<BlockId>) {
    Tracking(u, g, t, Place(visited, 0, 0)) && StacksThrough(u, g.s, stacks, t, t.order)
  }

  // Tracking only depends on which loads and stores have been passed.
  lemma StaysTracked(u: Promotion, g: Edits, t: Track, h: Place, h': Place)
    requires Tracking(u, g, t, h) && h'.visited == h.visited
    requires forall p :: Within(u.f, p) ==> (Passed(h, p) <==> Passed(h', p))
    ensures Tracking(u, g, t, h')
  {
    hide IsSetup, PhisHold, AllAlike, PushedFor;
    assert forall x :: VarLoadAt(u, x) ==> (Passed(h, u.at[x]) <==> Passed(h', u.at[x]));
    assert forall q :: VarStoreAt(u, q) ==> (Passed(h, q) <==> Passed(h', q));
  }

  lemma StartTracked(u: Promotion, g: Edits, stacks: Stacks, t: Track, visited: set<BlockId>, b: BlockId)
    requires Flowing(u, g, stacks, t, visited) && b in u.f.blocks && b !in visited
    ensures FlowAt(u, g, stacks, t, visited, b, 0)
  {
    hide IsSetup, Tracking, Pushed, Top;
    NothingPushed(u.f.blocks[b], PhisAt(t.phis, b), t.phiVars);
    StaysTracked(u, g, t, Place(visited, 0, 0), Place(visited, b, 0));
  }

  lemma NothingPushed(own: Block, phis: Block, phiVars: map<nat, nat>)
    ensures forall a: nat :: LastStored(Prefix(own, 0), Alloc(a)) == None && PhiFor(Prefix(phis, 0), phiVars, a) == None
  {
  }

  lemma EndTracked(u: Promotion, g: Edits, stacks: Stacks, t: Track, visited: set<BlockId>, b: BlockId, j: nat)
    requires FlowAt(u, g, stacks, t, visited, b, j) && j == |PhisAt(t.phis, b)| + |u.f.blocks[b]|
    ensures Tracking(u, g, t, Place(visited, b, |u.f.blocks[b]|)) && StacksThrough(u, g.s, stacks, t, t.order + [b])
  {
    hide IsSetup, Tracking, Pushed, PushedIn, Top;
    WholePrefix(u.f.blocks[b]);
    WholePrefix(PhisAt(t.phis, b));
    forall a
      ensures Pushed(FlowOf(u, g.s, t), t.order + [b], a)
           == PushedWith(FlowOf(u, g.s, t), t.order, PhisAt(t.phis, b), u.f.blocks[b], a)
    {
      PushedNext(FlowOf(u, g.s, t), t.order, b, a);
    }
  }

  // Scans a whole block.
  method ScanBlock(target: FunctionObject, b: BlockId, vars: set<nat>, phiVars: map<nat, nat>, stacks: Stacks,
                   ghost u: Promotion, ghost g: Edits, ghost visited: set<BlockId>, ghost t: Track)
                       returns (stacks': Stacks, ghost g': Edits)
    requires Holding(u, target.fn, g, phiVars) && Scanning(u, g.s, Place(visited, b, 0)) && vars == u.vars
    requires b in u.f.blocks && Flowing(u, g, stacks, t, visited) && t.phiVars == phiVars
    modifies target
    ensures Holding(u, target.fn, g', phiVars) && Scanning(u, g'.s, Place(visited, b, |u.f.blocks[b]|))
    ensures Tracking(u, g', t, Place(visited, b, |u.f.blocks[b]|)) && StacksThrough(u, g'.s, stacks', t, t.order + [b])
  {
    hide *;
    g', stacks' := g, stacks;
    HoldingBlock(u, target.fn, g, phiVars, b);
    ScanBegins(u, g.s, g.phis, visited, b);
    StartTracked(u, g, stacks, t, visited, b);
    var j := 0;
    while j < |target.fn.blocks[b]|
      invariant Holding(u, target.fn, g', phiVars) && ScanAt(u, g'.s, g'.phis, visited, b, j)
      invariant b in target.fn.blocks && 0 <= j <= |target.fn.blocks[b]| == |old(target.fn).blocks[b]|
      invariant FlowAt(u, g', stacks', t, visited, b, j)
    {
      stacks', g' := ScanInst(target, b, j, vars, phiVars, stacks', u, g', visited, t);
      j := j + 1;
    }
    HoldingBlock(u, target.fn, g', phiVars, b);
    ScanEnds(u, g'.s, g'.phis, visited, b, j);
    TrackedPhi(u, target.fn, g', phiVars, stacks', t, visited, b, j);
    EndTracked(u, g', stacks', t, visited, b, j);
  }

  // ---- Incoming values of the inserted phis

  function AddIncoming(i: Inst, from: BlockId, phiVars: map<nat, nat>, stacks: Stacks): Inst {
    if i.PhiInst? && i.id in phiVars && Top(stacks, phiVars[i.id]).Some?
    then PhiInst(i.id, i.incoming[from := Top(stacks, phiVars[i.id]).value]) else i
  }

  function WithIncoming(b: Block, from: BlockId, phiVars: map<nat, nat>, stacks: Stacks): (r: Block)
    ensures |r| == |b| && forall k :: 0 <= k < |b| ==> r[k] == AddIncoming(b[k], from, phiVars, stacks)
  {
    seq(|b|, k requires 0 <= k < |b| => AddIncoming(b[k], from, phiVars, stacks))
  }

  method AddIncomings(target: FunctionObject, from: BlockId, succ: BlockId, phiVars: map<nat, nat>, stacks: Stacks)
    requires succ in target.fn.blocks
    modifies target
    ensures target.fn == WithBlock(old(target.fn), succ,
        WithIncoming(old(target.fn).blocks[succ], from, phiVars, stacks))
  {
    ghost var f, block := target.fn, target.fn.blocks[succ];
    var j := 0;
    WithOwnBlock(f, succ);
    while j < |target.fn.blocks[succ]|
      invariant succ in target.fn.blocks && 0 <= j <= |target.fn.blocks[succ]| == |block|
      invariant target.fn == WithBlock(f, succ, target.fn.blocks[succ])
      invariant forall k :: 0 <= k < |block| ==>
          target.fn.blocks[succ][k] == if k < j then AddIncoming(block[k], from, phiVars, stacks) else block[k]
    {
      var inst := target.fn.blocks[succ][j];
      if inst.PhiInst? && inst.id in phiVars {
        var top := Top(stacks, phiVars[inst.id]);
        if top.Some? {
          target.SetInst(succ, j, PhiInst(inst.id, inst.incoming[from := top.value]));
        }
      }
      j := j + 1;
    }
    assert target.fn.blocks[succ] == WithIncoming(block, from, phiVars, stacks);
  }

  // Only the inserted phis of a block are touched.
  lemma IncomingAdded(u: Promotion, now: Function, g: Edits, phiVars: map<nat, nat>, from: BlockId, succ: BlockId,
      stacks: Stacks) returns (g': Edits)
    requires Holding(u, now, g, phiVars) && succ in u.f.blocks
    requires AvoidsVars(u.vars, g.s)
    ensures succ in now.blocks && g'.s == g.s
    ensures Holding(u, WithBlock(now, succ, WithIncoming(now.blocks[succ], from, phiVars, stacks)), g', phiVars)
  {
    hide IsSetup, PhiAllowed, RenameInst;
    var own := RenameBlock(g.s, u.f.blocks[succ]);
    var phis := WithIncoming(PhisAt(g.phis, succ), from, phiVars, stacks);
    g' := g.(phis := g.phis[succ := phis]);
    OwnUntouched(u, g, phiVars, from, succ, stacks);
    WithIncomingAppend(PhisAt(g.phis, succ), own, from, phiVars, stacks);
    IncomingPhisOk(u, g.phis, phiVars, from, succ, stacks);
    assert WithBlock(now, succ, phis + own).blocks == Now(u.f, g.s, g'.phis).blocks;
  }

  lemma WithIncomingAppend(a: Block, b: Block, from: BlockId, phiVars: map<nat, nat>, stacks: Stacks)
    ensures WithIncoming(a + b, from, phiVars, stacks)
        == WithIncoming(a, from, phiVars, stacks) + WithIncoming(b, from, phiVars, stacks)
  {
  }

  lemma OwnUntouched(u: Promotion, g: Edits, phiVars: map<nat, nat>, from: BlockId, succ: BlockId, stacks: Stacks)
    requires PhisOk(u, g.phis, phiVars) && succ in u.f.blocks
    requires AvoidsVars(u.vars, g.s)
    ensures WithIncoming(RenameBlock(g.s, u.f.blocks[succ]), from, phiVars, stacks)
        == RenameBlock(g.s, u.f.blocks[succ])
  {
    hide IsSetup, PhiOk, RenameInst;
    var own := RenameBlock(g.s, u.f.blocks[succ]);
    forall k | 0 <= k < |own|
      ensures AddIncoming(own[k], from, phiVars, stacks) == own[k]
    {
      OwnInst(u, g, phiVars, Pos(succ, k), own[k]);
    }
  }

  lemma IncomingPhisOk(u: Promotion, phis: Phis, phiVars: map<nat, nat>, from: BlockId, succ: BlockId, stacks: Stacks)
    requires PhisOk(u, phis, phiVars)
    ensures PhisOk(u, phis[succ := WithIncoming(PhisAt(phis, succ), from, phiVars, stacks)], phiVars)
  {
    hide IsSetup, PhiAllowed;
    var phis' := phis[succ := WithIncoming(PhisAt(phis, succ), from, phiVars, stacks)];
    forall b, k | 0 <= k < |PhisAt(phis', b)|
      ensures PhiOk(u, phiVars, b, PhisAt(phis', b)[k])
    {
      assert PhiOk(u, phiVars, b, PhisAt(phis, b)[k]);
    }
  }

  // ---- The walk

  // The analysis belongs to the function, its tree is exact, and the order is that of a walk over it.
  ghost predicate Analysed(u: Promotion, cfa: ControlFlowAnalysis)
    reads cfa.cfg, cfa.tree
  {
    cfa.Exact(u.f, u.index, u.doms) && Waiting(cfa.tree.Model(), u.order) == Some([])
  }

  lemma AnalysedGraph(u: Promotion, cfa: ControlFlowAnalysis)
    requires Analysed(u, cfa)
    ensures |u.f.order| > 0 && (forall c :: c in u.f.order ==> c in u.f.blocks) && cfa.cfg.Model() == CfgOf(u.f)
    ensures DC.IsTreeOf(cfa.tree.Model(), CfgOf(u.f).entry, u.doms)
  {
    hide IsSetup;
    HasGraph(u);
  }

  lemma SuccIsBlock(u: Promotion, cfa: ControlFlowAnalysis, b: BlockId, succs: seq<BlockId>)
    requires Analysed(u, cfa) && succs == Succs(cfa.cfg.Model(), b)
    ensures forall d :: d in succs ==> d in u.f.blocks
  {
    hide IsSetup, Analysed;
    AnalysedGraph(u, cfa);
    forall d | d in succs
      ensures d in u.f.blocks
    {
      EdgeIsBlock(u, b, d);
    }
  }

  lemma EdgeIsBlock(u: Promotion, b: BlockId, d: BlockId)
    requires |u.f.order| > 0 && (forall c :: c in u.f.order ==> c in u.f.blocks) && HasEdge(CfgOf(u.f), b, d)
    ensures d in u.f.blocks
  {
    hide WellFormed, NoneStored, DT.ExactParents, DC.Climbs, Preorder;
    CfgEdges(u.f, b, d);
  }

  // The function with the tops of the stacks as incoming values in the inserted phis of some blocks.
  function Updated(f: Function, from: BlockId, succs: seq<BlockId>, phiVars: map<nat, nat>, stacks: Stacks): Function {
    Function(f.order, map d | d in f.blocks ::
      if d in succs then WithIncoming(f.blocks[d], from, phiVars, stacks) else f.blocks[d])
  }

  lemma AddTwice(i: Inst, from: BlockId, phiVars: map<nat, nat>, stacks: Stacks)
    ensures var once := AddIncoming(i, from, phiVars, stacks); AddIncoming(once, from, phiVars, stacks) == once
  {
    hide Top;
    var once := AddIncoming(i, from, phiVars, stacks);
    if once.PhiInst? && once.id in phiVars && Top(stacks, phiVars[once.id]).Some? {
      var v := Top(stacks, phiVars[once.id]).value;
      assert once.incoming[from := v] == once.incoming;
    }
  }

  lemma UpdatedMore(f: Function, from: BlockId, succs: seq<BlockId>, d: BlockId, phiVars: map<nat, nat>, stacks: Stacks)
    requires d in f.blocks
    ensures var now := Updated(f, from, succs, phiVars, stacks);
      WithBlock(now, d, WithIncoming(now.blocks[d], from, phiVars, stacks))
        == Updated(f, from, succs + [d], phiVars, stacks)
  {
    hide Top;
    var now, all := Updated(f, from, succs, phiVars, stacks), succs + [d];
    var once := WithIncoming(f.blocks[d], from, phiVars, stacks);
    forall k | 0 <= k < |once|
      ensures AddIncoming(once[k], from, phiVars, stacks) == once[k]
    {
      AddTwice(f.blocks[d][k], from, phiVars, stacks);
    }
    assert WithIncoming(once, from, phiVars, stacks) == once;
    assert d in all;
    assert WithBlock(now, d, once).blocks == Updated(f, from, all, phiVars, stacks).blocks;
  }

  lemma UpdatedNothing(f: Function, from: BlockId, phiVars: map<nat, nat>, stacks: Stacks)
    ensures Updated(f, from, [], phiVars, stacks) == f
  {
  }

  /** The inserted phis of exactly the successors take, from this block, the top of the stack of their variable,
      if there is one. */
  method UpdateSuccessors(target: FunctionObject, cfa: ControlFlowAnalysis, b: BlockId, phiVars: map<nat, nat>,
      stacks: Stacks, ghost u: Promotion, ghost g: Edits) returns (ghost g': Edits)
    requires Holding(u, target.fn, g, phiVars) && Analysed(u, cfa) && target as object !in {cfa.cfg, cfa.tree}
    requires AvoidsVars(u.vars, g.s)
    modifies target
    ensures Holding(u, target.fn, g', phiVars) && g'.s == g.s && Analysed(u, cfa)
    ensures target.fn == Updated(old(target.fn), b, Succs(cfa.cfg.Model(), b), phiVars, stacks)
  {
    hide *;
    CfgIsValid(u, cfa);
    var succs := cfa.cfg.SuccsOf(b);
    SuccIsBlock(u, cfa, b, succs);
    g' := g;
    ghost var f := target.fn;
    var k := 0;
    UpdatedNothing(f, b, phiVars, stacks);
    assert succs[..0] == [];
    while k < |succs|
      invariant 0 <= k <= |succs| && Holding(u, target.fn, g', phiVars) && g'.s == g.s && Analysed(u, cfa)
      invariant target.fn == Updated(f, b, succs[..k], phiVars, stacks)
    {
      assert succs[k] in succs;
      g' := IncomingAdded(u, target.fn, g', phiVars, b, succs[k], stacks);
      UpdatedBlocks(f, b, succs[..k], phiVars, stacks);
      UpdatedMore(f, b, succs[..k], succs[k], phiVars, stacks);
      AddIncomings(target, b, succs[k], phiVars, stacks);
      assert succs[..k + 1] == succs[..k] + [succs[k]];
      k := k + 1;
    }
    assert succs[..k] == succs;
  }

  lemma UpdatedBlocks(f: Function, from: BlockId, succs: seq<BlockId>, phiVars: map<nat, nat>, stacks: Stacks)
    ensures Updated(f, from, succs, phiVars, stacks).blocks.Keys == f.blocks.Keys
  {
  }

  lemma CfgIsValid(u: Promotion, cfa: ControlFlowAnalysis)
    requires Analysed(u, cfa)
    ensures cfa.cfg.Valid() && cfa.tree.Valid()
  {
    hide IsSetup;
  }

  // A phi after the block b has been through, if the tops of the stacks have been added for it.
  lemma PhiUpdated(u: Promotion, s: Subst, t: Track, b: BlockId, d: BlockId, stacks: Stacks, i: Inst, i': Inst)
    requires PhiHolds(FlowOf(u, s, t), t.order, d, i) && b !in t.order && t.phiVars[i.id] in u.vars
    requires StacksThrough(u, s, stacks, t, t.order + [b])
    requires i' == if IsEdge(u.f, b, d) then AddIncoming(i, b, t.phiVars, stacks) else i
    ensures PhiHolds(FlowOf(u, s, t), t.order + [b], d, i')
  {
    hide IsSetup, IsEdge, PushedBy, Pushed, Top;
    var w, a := FlowOf(u, s, t), t.phiVars[i.id];
    NotPushedBy(w, t.order, b, a);
    assert Lookup(i.incoming, b) == Supplied(w, t.order, b, d, a) == None;
    forall c
      ensures Lookup(i'.incoming, c) == Supplied(w, t.order + [b], c, d, a)
    {
      PushedByNext(w, t.order, b, c, a);
      assert Lookup(i.incoming, c) == Supplied(w, t.order, c, d, a);
    }
  }

  // What an update makes of the phis of a block.
  lemma UpdatedPhis(u: Promotion, now: Function, g: Edits, now': Function, g': Edits, phiVars: map<nat, nat>,
      b: BlockId, stacks: Stacks, d: BlockId)
    requires Holding(u, now, g, phiVars) && Holding(u, now', g', phiVars) && g'.s == g.s && d in u.f.blocks
    requires |u.f.order| > 0 && (forall c :: c in u.f.order ==> c in u.f.blocks)
    requires now' == Updated(now, b, Succs(CfgOf(u.f), b), phiVars, stacks)
    ensures |PhisAt(g'.phis, d)| == |PhisAt(g.phis, d)|
    ensures forall k :: 0 <= k < |PhisAt(g.phis, d)| ==>
        var i := PhisAt(g.phis, d)[k];
        PhisAt(g'.phis, d)[k] == if IsEdge(u.f, b, d) then AddIncoming(i, b, phiVars, stacks) else i
  {
    hide IsSetup, PhisOk, Top, RenameInst, AddIncoming, CfgOf;
    var x, y := PhisAt(g.phis, d), PhisAt(g'.phis, d);
    var own := RenameBlock(g.s, u.f.blocks[d]);
    assert now.blocks[d] == x + own && now'.blocks[d] == y + own;
    assert |now'.blocks[d]| == |now.blocks[d]|;
    forall k | 0 <= k < |x|
      ensures y[k] == if IsEdge(u.f, b, d) then AddIncoming(x[k], b, phiVars, stacks) else x[k]
    {
      assert now.blocks[d][k] == x[k] && now'.blocks[d][k] == y[k];
    }
  }

  lemma {:induction false} BeforeLast(order: seq<BlockId>, b: BlockId)
    requires b !in order
    ensures Before(order + [b], b) == order
  {
    if order != [] {
      assert (order + [b])[1..] == order[1..] + [b];
      BeforeLast(order[1..], b);
    } else {
      assert order + [b] == [b];
    }
  }

  // The loads after the block b has been through.
  lemma LoadsThrough(u: Promotion, w: Flow, order: seq<BlockId>, visited: set<BlockId>, b: BlockId)
    requires b in u.f.blocks && LoadsHold(u, w, order, Place(visited, b, |u.f.blocks[b]|)) && b !in order
    requires forall c :: c in order <==> c in visited
    ensures LoadsHold(u, w, order + [b], Place(visited + {b}, 0, 0))
  {
    hide IsSetup, PushedWith;
    forall x | VarLoadAt(u, x) && Passed(Place(visited + {b}, 0, 0), u.at[x])
      ensures Lookup(w.s, x) == PushedFor(u, w, order + [b], x)
    {
      assert Passed(Place(visited, b, |u.f.blocks[b]|), u.at[x]);
      if u.at[x].block == b {
        BeforeLast(order, b);
        BeforeNew(order, b);
      } else {
        BeforeMore(order, b, u.at[x].block);
      }
    }
  }

  lemma StoresThrough(u: Promotion, s: Subst, visited: set<BlockId>, b: BlockId)
    requires b in u.f.blocks && SettledStores(u, s, Place(visited, b, |u.f.blocks[b]|))
    ensures SettledStores(u, s, Place(visited + {b}, 0, 0))
  {
    hide IsSetup;
    var h, h' := Place(visited, b, |u.f.blocks[b]|), Place(visited + {b}, 0, 0);
    forall q | VarStoreAt(u, q) && Passed(h', q)
      ensures Settled(u, s, h', Apply(s, InstAt(u.f, q).val))
    {
      assert Passed(h, q);
      StaysSettled(u, s, h, h', Apply(s, InstAt(u.f, q).val));
    }
  }

  lemma UpdateTracked(u: Promotion, now: Function, g: Edits, now': Function, g': Edits, phiVars: map<nat, nat>,
      b: BlockId, stacks: Stacks, t: Track, visited: set<BlockId>)
    requires Holding(u, now, g, phiVars) && Holding(u, now', g', phiVars) && g'.s == g.s && t.phiVars == phiVars
    requires |u.f.order| > 0 && (forall c :: c in u.f.order ==> c in u.f.blocks)
    requires now' == Updated(now, b, Succs(CfgOf(u.f), b), phiVars, stacks) && b in u.f.blocks && b !in visited
    requires Tracking(u, g, t, Place(visited, b, |u.f.blocks[b]|)) && StacksThrough(u, g.s, stacks, t, t.order + [b])
    ensures Flowing(u, g', stacks, t.(order := t.order + [b]), visited + {b})
  {
    hide IsSetup, Holding, Updated, CfgOf, IsEdge, StacksThrough, Settled, PhiHolds, AddIncoming, Succs, LoadsHold,
      SettledStores;
    var t' := t.(order := t.order + [b]);
    HoldingPhis(u, now, g, phiVars);
    forall d | d in u.f.blocks
      ensures |PhisAt(g'.phis, d)| == |PhisAt(g.phis, d)|
      ensures AlikePhis(PhisAt(g'.phis, d), PhisAt(t.phis, d))
    {
      UpdatedPhis(u, now, g, now', g', phiVars, b, stacks, d);
      AddedAlike(u, g, g', phiVars, b, stacks, d, t);
    }
    assert FlowOf(u, g'.s, t') == FlowOf(u, g.s, t);
    forall d, k | d in u.f.blocks && 0 <= k < |PhisAt(g'.phis, d)|
      ensures PhiHolds(FlowOf(u, g'.s, t'), t'.order, d, PhisAt(g'.phis, d)[k])
    {
      UpdatedPhis(u, now, g, now', g', phiVars, b, stacks, d);
      PhiIsOk(u, g.phis, phiVars, d, k);
      PhiUpdated(u, g.s, t, b, d, stacks, PhisAt(g.phis, d)[k], PhisAt(g'.phis, d)[k]);
    }
    StillThrough(u, g.s, stacks, t, t');
    StoresThrough(u, g.s, visited, b);
    LoadsThrough(u, FlowOf(u, g.s, t), t.order, visited, b);
    assert Tracking(u, g', t', Place(visited + {b}, 0, 0));
  }

  lemma StillThrough(u: Setup, s: Subst, stacks: Stacks, t: Track, t': Track)
    requires StacksThrough(u, s, stacks, t, t'.order) && t'.phis == t.phis && t'.phiVars == t.phiVars
    ensures StacksThrough(u, s, stacks, t', t'.order)
  {
  }

  lemma PhiIsOk(u: Promotion, phis: Phis, phiVars: map<nat, nat>, d: BlockId, k: nat)
    requires PhisOk(u, phis, phiVars) && k < |PhisAt(phis, d)|
    ensures var i := PhisAt(phis, d)[k]; i.PhiInst? && i.id in phiVars && phiVars[i.id] in u.vars
  {
    hide IsSetup, PhiAllowed;
    assert PhiOk(u, phiVars, d, PhisAt(phis, d)[k]);
  }

  lemma AddedAlike(u: Promotion, g: Edits, g': Edits, phiVars: map<nat, nat>, b: BlockId, stacks: Stacks, d: BlockId,
      t: Track)
    requires AllAlike(u.f, g.phis, t.phis) && d in u.f.blocks && |PhisAt(g'.phis, d)| == |PhisAt(g.phis, d)|
    requires forall k :: 0 <= k < |PhisAt(g.phis, d)| ==>
        var i := PhisAt(g.phis, d)[k];
        PhisAt(g'.phis, d)[k] == if IsEdge(u.f, b, d) then AddIncoming(i, b, phiVars, stacks) else i
    ensures AlikePhis(PhisAt(g'.phis, d), PhisAt(t.phis, d))
  {
    hide IsSetup, IsEdge, Top;
    assert AlikePhis(PhisAt(g.phis, d), PhisAt(t.phis, d));
  }

  lemma ChildrenOf(u: Promotion, cfa: ControlFlowAnalysis, b: BlockId, children: seq<BlockId>)
    requires Analysed(u, cfa) && children == Succs(cfa.tree.Model(), b)
    ensures |u.f.order| > 0 && (forall c :: c in u.f.order ==> c in u.f.blocks)
    ensures AreChildren(CfgOf(u.f), u.doms, b, children)
  {
    hide IsSetup, AreChildren, DT.ExactParents, DC.Climbs, Analysed;
    AnalysedGraph(u, cfa);
    TreeChildren(CfgOf(u.f), cfa.tree.Model(), u.doms, b);
  }

  lemma TopIsBlock(u: Promotion, s: Subst, w: Walk, b: BlockId, rest: seq<BlockId>)
    requires Between(u, s, w) && w.waiting == rest + [b]
    ensures b in u.f.blocks && b in u.doms && b !in w.visited && w.visited <= u.doms.Keys
    ensures |u.f.order| > 0 && (forall c :: c in u.f.order ==> c in u.f.blocks) && WalkOk(CfgOf(u.f), u.doms, w)
  {
    hide IsSetup, Dom, DT.ExactParents, Layered, ChildrenWait, Replaced;
    HasTree(u);
    TopWaits(CfgOf(u.f), u.doms, w, b, rest);
  }

  // The blocks have been popped in the order, and what waits is on the stack.
  ghost predicate Popped(tree: Digraph, order: seq<BlockId>, waiting: seq<BlockId>) {
    Waiting(tree, order) == Some(waiting) && NoDup(order)
  }

  lemma PoppedNext(tree: Digraph, order: seq<BlockId>, b: BlockId, rest: seq<BlockId>)
    requires Popped(tree, order, rest + [b]) && b !in order
    ensures Popped(tree, order + [b], rest + Succs(tree, b))
  {
    hide Succs;
    WaitingNext(tree, order, b, rest);
  }

  lemma NotInOrder(u: Promotion, g: Edits, stacks: Stacks, t: Track, visited: set<BlockId>, b: BlockId)
    requires Flowing(u, g, stacks, t, visited) && b !in visited
    ensures b !in t.order
  {
    hide IsSetup, SettledStores, PhisHold, StacksThrough, AllAlike, LoadsHold;
  }

  // One block of the walk.
  method VisitBlock(target: FunctionObject, cfa: ControlFlowAnalysis, b: BlockId, rest: seq<BlockId>, vars: set<nat>,
      phiVars: map<nat, nat>, stacks: Stacks, ghost u: Promotion, ghost g: Edits, ghost w: Walk, ghost t: Track)
      returns (stacks': Stacks, waiting: seq<BlockId>, ghost g': Edits, ghost w': Walk, ghost t': Track)
    requires Holding(u, target.fn, g, phiVars) && Between(u, g.s, w) && w.waiting == rest + [b]
    requires vars == u.vars
    requires Analysed(u, cfa) && target as object !in {cfa.cfg, cfa.tree}
    requires Flowing(u, g, stacks, t, w.visited) && t.phiVars == phiVars
    requires Popped(cfa.tree.Model(), t.order, w.waiting)
    modifies target
    ensures Holding(u, target.fn, g', phiVars) && Between(u, g'.s, w') && w'.waiting == waiting
    ensures Analysed(u, cfa)
    ensures w'.visited == w.visited + {b} && b !in w.visited && b in u.doms && w.visited <= u.doms.Keys
    ensures Flowing(u, g', stacks', t', w'.visited) && t' == t.(order := t.order + [b])
    ensures Popped(cfa.tree.Model(), t'.order, w'.waiting)
  {
    hide *;
    TopIsBlock(u, g.s, w, b, rest);
    StartBlock(u, g.s, w, b, rest);
    NotInOrder(u, g, stacks, t, w.visited, b);
    stacks', g' := ScanBlock(target, b, vars, phiVars, stacks, u, g, w.visited, t);
    NoAddresses(u, g'.s, Place(w.visited, b, |u.f.blocks[b]|));
    ghost var scanned, now := g', target.fn;
    g' := UpdateSuccessors(target, cfa, b, phiVars, stacks', u, g');
    CfgIsValid(u, cfa);
    AnalysedGraph(u, cfa);
    UpdateTracked(u, now, scanned, target.fn, g', phiVars, b, stacks', t, w.visited);
    var children := cfa.tree.SuccsOf(b);
    ChildrenOf(u, cfa, b, children);
    FinishBlock(u, scanned.s, w, b, rest, children);
    PoppedNext(cfa.tree.Model(), t.order, b, rest);
    waiting := rest + children;
    w' := Walk(w.visited + {b}, waiting);
    t' := t.(order := t.order + [b]);
  }

  lemma BeginTrack(u: Promotion, now: Function, phis: Phis, phiVars: map<nat, nat>)
    requires Holding(u, now, Edits(map[], phis), phiVars) && Fresh(phis)
    ensures Flowing(u, Edits(map[], phis), map[], Track(phis, phiVars, []), {})
  {
    hide IsSetup, PhiAllowed, IsEdge;
    forall d, k | d in u.f.blocks && 0 <= k < |PhisAt(phis, d)|
      ensures PhiHolds(Flow(u.f, map[], phis, phiVars), [], d, PhisAt(phis, d)[k])
    {
      assert PhiOk(u, phiVars, d, PhisAt(phis, d)[k]);
    }
  }

  /** The walk replaces every load by what has been pushed last where it is, in the order of the tree, and gives every
      phi the values that were pushed last. */
  method WalkTree(target: FunctionObject, cfa: ControlFlowAnalysis, vars: set<nat>, phiVars: map<nat, nat>,
      ghost u: Promotion, ghost phis: Phis)
      returns (ghost g: Edits, ghost t: Track)
    requires Holding(u, target.fn, Edits(map[], phis), phiVars) && vars == u.vars && Fresh(phis)
    requires Analysed(u, cfa) && target as object !in {cfa.cfg, cfa.tree}
    modifies target
    ensures Holding(u, target.fn, g, phiVars) && Analysed(u, cfa)
    ensures Walked(u, g, t) && t.phis == phis && t.phiVars == phiVars
  {
    hide *;
    var stacks: Stacks := map[];
    BeginScan(u);
    EntryIs(u, cfa);
    BeginTrack(u, target.fn, phis, phiVars);
    var waiting := [cfa.cfg.entry];
    ghost var w := Walk({}, waiting);
    g, t := Edits(map[], phis), Track(phis, phiVars, []);
    TreeEntry(u, cfa);
    while waiting != []
      invariant Holding(u, target.fn, g, phiVars) && Between(u, g.s, w) && w.waiting == waiting
      invariant Analysed(u, cfa) && Flowing(u, g, stacks, t, w.visited) && Popped(cfa.tree.Model(), t.order, waiting)
      invariant t.phis == phis && t.phiVars == phiVars
      decreases u.doms.Keys - w.visited
    {
      var b, rest := waiting[|waiting| - 1], waiting[..|waiting| - 1];
      assert waiting == rest + [b];
      stacks, waiting, g, w, t := VisitBlock(target, cfa, b, rest, vars, phiVars, stacks, u, g, w, t);
    }
    WalkIsTracked(u, cfa, g, stacks, w, t);
  }

  lemma TreeEntry(u: Promotion, cfa: ControlFlowAnalysis)
    requires Analysed(u, cfa)
    ensures Popped(cfa.tree.Model(), [], [cfa.cfg.entry])
  {
    hide IsSetup;
  }

  /** The walk is over: it has taken the blocks in their order, replaced the loads by what was pushed last, and every
      inserted phi has from each block what was pushed last there. */
  ghost predicate Walked(u: Setup, g: Edits, t: Track) {
    && t.order == u.order && AllAlike(u.f, g.phis, t.phis) && PhisHold(FlowOf(u, g.s, t), t.order, g.phis)
    && Replaced(u, g.s, AtEnd(u)) && LoadsHold(u, FlowOf(u, g.s, t), t.order, AtEnd(u))
  }

  function AtEnd(u: Setup): Place {
    Place(set b | b in u.order, 0, 0)
  }

  lemma WalkIsTracked(u: Promotion, cfa: ControlFlowAnalysis, g: Edits, stacks: Stacks, w: Walk, t: Track)
    requires Between(u, g.s, w) && w.waiting == [] && Flowing(u, g, stacks, t, w.visited)
    requires Analysed(u, cfa) && Popped(cfa.tree.Model(), t.order, [])
    ensures Walked(u, g, t)
  {
    hide IsSetup, PhisHold, AllAlike, SettledStores, StacksThrough, Replaced, LoadsHold, WalkOk, Waiting, Succs;
    OrderWalked(u, cfa);
    OneOrder(cfa.tree.Model(), t.order, u.order);
    assert w.visited == AtEnd(u).visited;
    assert Place(w.visited, 0, 0) == AtEnd(u);
  }

  lemma OrderWalked(u: Promotion, cfa: ControlFlowAnalysis)
    requires Analysed(u, cfa)
    ensures Waiting(cfa.tree.Model(), u.order) == Some([])
  {
    hide IsSetup, Waiting;
  }

  lemma EntryIs(u: Promotion, cfa: ControlFlowAnalysis)
    requires Analysed(u, cfa)
    ensures |u.f.order| > 0 && cfa.cfg.entry == Entry(u.f)
  {
    hide IsSetup;
    HasGraph(u);
  }

  // ---- Inserting phis

  function StoresAmong(f: Function, users: seq<Pos>): (r: seq<Pos>)
    requires forall p :: p in users ==> Within(f, p)
    ensures forall p :: p in r <==> p in users && InstAt(f, p).StoreInst?
  {
    if users == [] then []
    else
      var rest := StoresAmong(f, users[1..]);
      assert users == [users[0]] + users[1..];
      if InstAt(f, users[0]).StoreInst? then [users[0]] + rest else rest
  }

  // Only part of the frontier of a store to the variable.
  ghost predicate FrontierPart(u: Promotion, a: nat, todo: set<BlockId>) {
    forall d :: d in todo ==> d in u.f.blocks && PhiAllowed(u, a, d)
  }

  function PhisWith(phis: Phis, d: BlockId, phi: Inst): Phis {
    phis[d := [phi] + PhisAt(phis, d)]
  }

  lemma PhiPrepended(f: Function, phis: Phis, d: BlockId, phi: Inst)
    requires d in f.blocks
    ensures d in Now(f, map[], phis).blocks
    ensures WithBlock(Now(f, map[], phis), d, InsertAt(Now(f, map[], phis).blocks[d], 0, phi))
        == Now(f, map[], PhisWith(phis, d, phi))
  {
    hide RenameBlock;
    var now := Now(f, map[], phis);
    assert InsertAt(now.blocks[d], 0, phi) == [phi] + PhisAt(phis, d) + RenameBlock(map[], f.blocks[d]);
    assert WithBlock(now, d, InsertAt(now.blocks[d], 0, phi)).blocks == Now(f, map[], PhisWith(phis, d, phi)).blocks;
  }

  lemma PhiWithOk(u: Promotion, phis: Phis, phiVars: map<nat, nat>, a: nat, d: BlockId, next: nat)
    requires PhisOk(u, phis, phiVars) && a in u.vars && PhiAllowed(u, a, d) && next >= u.base && next !in phiVars
    ensures PhisOk(u, PhisWith(phis, d, PhiInst(next, map[])), phiVars[next := a])
  {
    hide IsSetup, PhiAllowed;
    var phi := PhiInst(next, map[]);
    var phis' := PhisWith(phis, d, phi);
    forall b, k | 0 <= k < |PhisAt(phis', b)|
      ensures PhiOk(u, phiVars[next := a], b, PhisAt(phis', b)[k])
    {
      if b == d && k == 0 {
        assert PhisAt(phis', b)[k] == phi;
      } else {
        var j := if b == d then k - 1 else k;
        assert PhisAt(phis', b)[k] == PhisAt(phis, b)[j] && PhiOk(u, phiVars, b, PhisAt(phis, b)[j]);
      }
    }
  }

  lemma PhiInserted(u: Promotion, now: Function, phis: Phis, phiVars: map<nat, nat>, a: nat, d: BlockId, next: nat)
    requires Holding(u, now, Edits(map[], phis), phiVars) && a in u.vars && d in u.f.blocks && PhiAllowed(u, a, d)
    requires next >= u.base && next !in phiVars
    ensures d in now.blocks
    ensures Holding(u, WithBlock(now, d, InsertAt(now.blocks[d], 0, PhiInst(next, map[]))),
        Edits(map[], PhisWith(phis, d, PhiInst(next, map[]))), phiVars[next := a])
  {
    hide IsSetup, PhiAllowed, PhisWith, PhisOk, Now, WithBlock;
    PhiPrepended(u.f, phis, d, PhiInst(next, map[]));
    PhiWithOk(u, phis, phiVars, a, d, next);
  }

  lemma {:induction false} CountUnchanged(block: Block, phiVars: map<nat, nat>, next: nat, a: nat, c: nat)
    requires forall k :: 0 <= k < |block| ==> block[k].PhiInst? && block[k].id != next
    ensures PhiCount(block, phiVars[next := a], c) == PhiCount(block, phiVars, c)
  {
    if block != [] {
      CountUnchanged(block[1..], phiVars, next, a, c);
    }
  }

  // The phis of the variable have become one more in every block of the set, and all others are as many as before.
  ghost predicate Added(phis: Phis, phiVars: map<nat, nat>, phis': Phis, phiVars': map<nat, nat>, a: nat,
      blocks: set<BlockId>)
  {
    forall b, c {:trigger PhiCount(PhisAt(phis', b), phiVars', c)} ::
      PhiCount(PhisAt(phis', b), phiVars', c)
        == PhiCount(PhisAt(phis, b), phiVars, c) + if c == a && b in blocks then 1 else 0
  }

  lemma NothingAdded(phis: Phis, phiVars: map<nat, nat>, a: nat)
    ensures Added(phis, phiVars, phis, phiVars, a, {})
  {
  }

  lemma PhiCounted(u: Promotion, phis: Phis, phiVars: map<nat, nat>, a: nat, d: BlockId, next: nat)
    requires PhisOk(u, phis, phiVars) && next !in phiVars
    ensures Added(phis, phiVars, PhisWith(phis, d, PhiInst(next, map[])), phiVars[next := a], a, {d})
  {
    hide IsSetup, PhiAllowed;
    var phi := PhiInst(next, map[]);
    forall b, c
      ensures PhiCount(PhisAt(PhisWith(phis, d, phi), b), phiVars[next := a], c)
           == PhiCount(PhisAt(phis, b), phiVars, c) + if c == a && b in {d} then 1 else 0
    {
      forall k | 0 <= k < |PhisAt(phis, b)|
        ensures PhisAt(phis, b)[k].PhiInst? && PhisAt(phis, b)[k].id != next
      {
        assert PhiOk(u, phiVars, b, PhisAt(phis, b)[k]);
      }
      CountUnchanged(PhisAt(phis, b), phiVars, next, a, c);
      if b == d {
        assert ([phi] + PhisAt(phis, d))[1..] == PhisAt(phis, d);
      }
    }
  }

  lemma AddedAfter(p0: Phis, v0: map<nat, nat>, p1: Phis, v1: map<nat, nat>, p2: Phis, v2: map<nat, nat>, a: nat,
      s: set<BlockId>, t: set<BlockId>)
    requires Added(p0, v0, p1, v1, a, s) && Added(p1, v1, p2, v2, a, t) && s !! t
    ensures Added(p0, v0, p2, v2, a, s + t)
  {
    hide PhiCount, PhisAt;
    forall b, c
      ensures PhiCount(PhisAt(p2, b), v2, c) == PhiCount(PhisAt(p0, b), v0, c) + if c == a && b in s + t then 1 else 0
    {
      assert PhiCount(PhisAt(p1, b), v1, c) == PhiCount(PhisAt(p0, b), v0, c) + if c == a && b in s then 1 else 0;
    }
  }

  lemma HoldingPhis(u: Promotion, now: Function, g: Edits, phiVars: map<nat, nat>)
    requires Holding(u, now, g, phiVars)
    ensures PhisOk(u, g.phis, phiVars)
  {
  }

  // Inserts a phi for the variable in front of a block.
  method InsertPhi(target: FunctionObject, a: nat, d: BlockId, phiVars: map<nat, nat>, next: nat, ghost u: Promotion,
      ghost phis: Phis)
      returns (phiVars': map<nat, nat>, ghost phis': Phis)
    requires Holding(u, target.fn, Edits(map[], phis), phiVars) && a in u.vars && d in u.f.blocks
    requires PhiAllowed(u, a, d) && next >= u.base && next !in phiVars
    modifies target
    ensures Holding(u, target.fn, Edits(map[], phis'), phiVars') && phiVars' == phiVars[next := a]
    ensures Added(phis, phiVars, phis', phiVars', a, {d}) && (Fresh(phis) ==> Fresh(phis'))
  {
    hide *;
    HoldingPhis(u, target.fn, Edits(map[], phis), phiVars);
    PhiInserted(u, target.fn, phis, phiVars, a, d, next);
    PhiCounted(u, phis, phiVars, a, d, next);
    FreshWith(u, phis, phiVars, d, next);
    target.Insert(d, 0, PhiInst(next, map[]));
    phis' := PhisWith(phis, d, PhiInst(next, map[]));
    phiVars' := phiVars[next := a];
  }

  // No phi has an incoming value yet, and no two blocks have the same phi.
  ghost predicate Fresh(phis: Phis) {
    && (forall b, k {:trigger PhisAt(phis, b)[k]} :: 0 <= k < |PhisAt(phis, b)| ==>
          PhisAt(phis, b)[k].PhiInst? && PhisAt(phis, b)[k].incoming == map[])
    && Distinct(phis)
  }

  ghost predicate Distinct(phis: Phis) {
    forall b, c, j, k {:trigger PhisAt(phis, b)[j], PhisAt(phis, c)[k]} ::
      0 <= j < |PhisAt(phis, b)| && 0 <= k < |PhisAt(phis, c)| && SamePhi(PhisAt(phis, b)[j], PhisAt(phis, c)[k]) ==>
      b == c
  }

  predicate SamePhi(i: Inst, j: Inst) {
    i.PhiInst? && j.PhiInst? && i.id == j.id
  }

  lemma FreshWith(u: Promotion, phis: Phis, phiVars: map<nat, nat>, d: BlockId, next: nat)
    requires PhisOk(u, phis, phiVars) && next !in phiVars
    ensures Fresh(phis) ==> Fresh(PhisWith(phis, d, PhiInst(next, map[])))
  {
    hide IsSetup, PhiAllowed;
    var phi := PhiInst(next, map[]);
    var phis' := PhisWith(phis, d, phi);
    if Fresh(phis) {
      forall b, k | 0 <= k < |PhisAt(phis', b)|
        ensures (PhisAt(phis', b)[k] == phi && b == d)
          || exists m :: 0 <= m < |PhisAt(phis, b)| && PhisAt(phis', b)[k] == PhisAt(phis, b)[m]
      {
        if b != d {
          assert PhisAt(phis', b)[k] == PhisAt(phis, b)[k];
        } else if k > 0 {
          assert PhisAt(phis', b)[k] == PhisAt(phis, b)[k - 1];
        }
      }
      assert forall b, m :: 0 <= m < |PhisAt(phis, b)| ==> PhiOk(u, phiVars, b, PhisAt(phis, b)[m]);
    }
  }

  // One phi for the variable in every block of the set that has none yet.
  method InsertPhisAt(target: FunctionObject, a: nat, frontier: set<BlockId>, visited: set<BlockId>,
      phiVars: map<nat, nat>, next: nat, ghost u: Promotion, ghost phis: Phis)
      returns (visited': set<BlockId>, phiVars': map<nat, nat>, next': nat, ghost phis': Phis)
    requires Holding(u, target.fn, Edits(map[], phis), phiVars) && a in u.vars && FrontierPart(u, a, frontier)
    requires next >= u.base && forall id :: id in phiVars ==> id < next
    modifies target
    ensures Holding(u, target.fn, Edits(map[], phis'), phiVars') && next' >= u.base
    ensures forall id :: id in phiVars' ==> id < next'
    ensures visited' == visited + frontier && Added(phis, phiVars, phis', phiVars', a, frontier - visited)
    ensures Fresh(phis) ==> Fresh(phis')
  {
    hide *;
    visited', phiVars', next', phis' := visited, phiVars, next, phis;
    var todo := frontier;
    NothingAdded(phis, phiVars, a);
    assert (frontier - todo) - visited == {};
    while todo != {}
      invariant todo <= frontier && Holding(u, target.fn, Edits(map[], phis'), phiVars')
      invariant next' >= u.base && forall id :: id in phiVars' ==> id < next'
      invariant visited' == visited + (frontier - todo) && (Fresh(phis) ==> Fresh(phis'))
      invariant Added(phis, phiVars, phis', phiVars', a, (frontier - todo) - visited)
    {
      var d :| d in todo;
      ghost var handled := (frontier - todo) - visited;
      todo := todo - {d};
      if d !in visited' {
        visited' := visited' + {d};
        PartHolds(u, a, frontier, d);
        ghost var p1, v1 := phis', phiVars';
        phiVars', phis' := InsertPhi(target, a, d, phiVars', next', u, phis');
        next' := next' + 1;
        AddedAfter(phis, phiVars, p1, v1, phis', phiVars', a, handled, {d});
        assert (frontier - todo) - visited == handled + {d};
      } else {
        assert (frontier - todo) - visited == handled;
      }
    }
    assert (frontier - todo) - visited == frontier - visited;
  }

  lemma PartHolds(u: Promotion, a: nat, frontier: set<BlockId>, d: BlockId)
    requires FrontierPart(u, a, frontier) && d in frontier
    ensures d in u.f.blocks && PhiAllowed(u, a, d)
  {
    hide WellFormed, NoneStored, DT.ExactParents, DC.Climbs, Preorder;
  }

  lemma AnalysedFrontier(u: Promotion, cfa: ControlFlowAnalysis, x: BlockId)
    requires Analysed(u, cfa) && x in u.doms
    ensures |u.f.order| > 0 && (forall c :: c in u.f.order ==> c in u.f.blocks)
    ensures forall d :: d in F.FrontierOf(cfa.frontiers, x) <==> F.InFrontier(CfgOf(u.f), x, d)
  {
    hide IsSetup, F.InFrontier, F.ExactTree;
    HasGraph(u);
    assert F.IsFrontier(CfgOf(u.f), x, F.FrontierOf(cfa.frontiers, x));
  }

  lemma OutsideFrontier(u: Promotion, cfa: ControlFlowAnalysis, x: BlockId)
    requires Analysed(u, cfa)
    ensures x !in u.doms ==> F.FrontierOf(cfa.frontiers, x) == {}
  {
    hide IsSetup, F.InFrontier, F.ExactTree;
  }

  lemma AllowedBy(u: Promotion, a: nat, q: Pos, d: BlockId)
    requires VarStoreAt(u, q) && InstAt(u.f, q).ptr == Alloc(a) && ValidFunction(u.f)
    requires F.InFrontier(CfgOf(u.f), q.block, d)
    requires CanRun(u.f, q.block)
    ensures PhiAllowed(u, a, d)
  {
    hide IsSetup, ValidFunction;
  }

  lemma FrontierMember(u: Promotion, cfa: ControlFlowAnalysis, a: nat, q: Pos, d: BlockId)
    requires Analysed(u, cfa) && VarStoreAt(u, q) && InstAt(u.f, q).ptr == Alloc(a)
    requires d in F.FrontierOf(cfa.frontiers, q.block)
    ensures d in u.f.blocks && PhiAllowed(u, a, d)
  {
    hide IsSetup, F.InFrontier, Analysed, PhiAllowed, F.FrontierOf, VarStoreAt;
    HasTree(u);
    HasOrder(u);
    InTree(u, q.block);
    OutsideFrontier(u, cfa, q.block);
    AnalysedFrontier(u, cfa, q.block);
    FrontierIsBlock(u, q.block, d);
    AllowedBy(u, a, q, d);
  }

  lemma FrontierIsPart(u: Promotion, cfa: ControlFlowAnalysis, a: nat, q: Pos)
    requires Analysed(u, cfa) && VarStoreAt(u, q) && InstAt(u.f, q).ptr == Alloc(a)
    ensures FrontierPart(u, a, F.FrontierOf(cfa.frontiers, q.block))
  {
    hide IsSetup, Analysed, VarStoreAt, F.FrontierOf;
    forall d | d in F.FrontierOf(cfa.frontiers, q.block)
      ensures d in u.f.blocks && PhiAllowed(u, a, d)
    {
      FrontierMember(u, cfa, a, q, d);
    }
  }

  lemma FrontierIsBlock(u: Promotion, x: BlockId, d: BlockId)
    requires |u.f.order| > 0 && (forall c :: c in u.f.order ==> c in u.f.blocks) && F.InFrontier(CfgOf(u.f), x, d)
    ensures d in u.f.blocks
  {
    hide IsSetup;
    var p :| F.InFrontierVia(CfgOf(u.f), x, d, p);
    EdgeIsBlock(u, p, d);
  }

  function FrontiersOf(frontiers: map<BlockId, set<BlockId>>, stores: seq<Pos>): set<BlockId> {
    set q, d | q in stores && d in F.FrontierOf(frontiers, q.block) :: d
  }

  lemma FrontiersMore(frontiers: map<BlockId, set<BlockId>>, stores: seq<Pos>, k: nat)
    requires k < |stores|
    ensures FrontiersOf(frontiers, stores[..k + 1])
         == FrontiersOf(frontiers, stores[..k]) + F.FrontierOf(frontiers, stores[k].block)
  {
    hide F.FrontierOf;
    assert stores[..k + 1] == stores[..k] + [stores[k]];
    forall d | d in F.FrontierOf(frontiers, stores[k].block)
      ensures d in FrontiersOf(frontiers, stores[..k + 1])
    {
      assert stores[k] in stores[..k + 1];
    }
  }

  // Phis for one variable, in the frontiers of the blocks of its stores.
  method InsertPhisFor(target: FunctionObject, cfa: ControlFlowAnalysis, a: nat, stores: seq<Pos>,
      phiVars: map<nat, nat>, next: nat, ghost u: Promotion, ghost phis: Phis)
      returns (phiVars': map<nat, nat>, next': nat, ghost phis': Phis)
    requires Holding(u, target.fn, Edits(map[], phis), phiVars) && a in u.vars && Analysed(u, cfa)
    requires target as object !in {cfa.cfg, cfa.tree}
    requires forall q :: q in stores ==> VarStoreAt(u, q) && InstAt(u.f, q).ptr == Alloc(a)
    requires next >= u.base && forall id :: id in phiVars ==> id < next
    modifies target
    ensures Holding(u, target.fn, Edits(map[], phis'), phiVars') && next' >= u.base
    ensures forall id :: id in phiVars' ==> id < next'
    ensures Added(phis, phiVars, phis', phiVars', a, FrontiersOf(cfa.frontiers, stores))
    ensures Analysed(u, cfa) && (Fresh(phis) ==> Fresh(phis'))
  {
    hide IsSetup, Holding, Analysed, FrontierPart, VarStoreAt, Added, Fresh, F.FrontierOf, FrontiersOf;
    phiVars', next', phis' := phiVars, next, phis;
    var visited: set<BlockId> := {};
    var k := 0;
    NothingAdded(phis, phiVars, a);
    NoFrontiers(cfa.frontiers, stores);
    while k < |stores|
      invariant 0 <= k <= |stores| && Holding(u, target.fn, Edits(map[], phis'), phiVars') && Analysed(u, cfa)
      invariant next' >= u.base && forall id :: id in phiVars' ==> id < next'
      invariant visited == FrontiersOf(cfa.frontiers, stores[..k]) && (Fresh(phis) ==> Fresh(phis'))
      invariant Added(phis, phiVars, phis', phiVars', a, visited)
    {
      assert stores[k] in stores;
      var frontier := F.FrontierOf(cfa.frontiers, stores[k].block);
      ghost var before, p1, v1 := visited, phis', phiVars';
      FrontierIsPart(u, cfa, a, stores[k]);
      FrontiersMore(cfa.frontiers, stores, k);
      visited, phiVars', next', phis' := InsertPhisAt(target, a, frontier, visited, phiVars', next', u, phis');
      AddedAfter(phis, phiVars, p1, v1, phis', phiVars', a, before, frontier - before);
      assert before + (frontier - before) == visited;
      k := k + 1;
    }
    assert stores[..k] == stores;
  }

  lemma NoFrontiers(frontiers: map<BlockId, set<BlockId>>, stores: seq<Pos>)
    ensures FrontiersOf(frontiers, stores[..0]) == {}
  {
  }

  // Each of the variables has one phi in every block where the dominance of one of its stores ends, and none elsewhere.
  ghost predicate PhisPlaced(u: Promotion, phis: Phis, phiVars: map<nat, nat>, vars: set<nat>) {
    forall b, c {:trigger PhiCount(PhisAt(phis, b), phiVars, c)} ::
      PhiCount(PhisAt(phis, b), phiVars, c) == if c in vars && PhiAllowed(u, c, b) then 1 else 0
  }

  lemma NothingPlaced(u: Promotion)
    ensures PhisPlaced(u, map[], map[], {}) && Fresh(map[])
  {
    hide IsSetup, PhiAllowed;
  }

  lemma StoresFound(u: Promotion, cfa: ControlFlowAnalysis, a: nat, stores: seq<Pos>, d: BlockId)
    requires a in u.vars && Analysed(u, cfa) && ValidFunction(u.f)
    requires forall q :: q in stores <==> VarStoreAt(u, q) && InstAt(u.f, q).ptr == Alloc(a)
    ensures d in FrontiersOf(cfa.frontiers, stores) <==> PhiAllowed(u, a, d)
  {
    hide IsSetup, Analysed, F.FrontierOf, F.InFrontier, ValidFunction;
    if d in FrontiersOf(cfa.frontiers, stores) {
      var q :| q in stores && d in F.FrontierOf(cfa.frontiers, q.block);
      FrontierMember(u, cfa, a, q, d);
    }
    if PhiAllowed(u, a, d) {
      var q :| VarStoreAt(u, q) && InstAt(u.f, q).ptr == Alloc(a) && CanRun(u.f, q.block)
        && F.InFrontier(CfgOf(u.f), q.block, d);
      InTree(u, q.block);
      AnalysedFrontier(u, cfa, q.block);
      assert q in stores;
    }
  }

  lemma PlacedMore(u: Promotion, cfa: ControlFlowAnalysis, a: nat, stores: seq<Pos>, p0: Phis, v0: map<nat, nat>,
      p1: Phis, v1: map<nat, nat>, vars: set<nat>)
    requires PhisPlaced(u, p0, v0, vars) && a !in vars && a in u.vars && Analysed(u, cfa) && ValidFunction(u.f)
    requires Added(p0, v0, p1, v1, a, FrontiersOf(cfa.frontiers, stores))
    requires forall q :: q in stores <==> VarStoreAt(u, q) && InstAt(u.f, q).ptr == Alloc(a)
    ensures PhisPlaced(u, p1, v1, vars + {a})
  {
    hide IsSetup, Analysed, PhiCount, PhisAt, PhiAllowed, FrontiersOf, VarStoreAt, ValidFunction;
    forall b, c
      ensures PhiCount(PhisAt(p1, b), v1, c) == if c in vars + {a} && PhiAllowed(u, c, b) then 1 else 0
    {
      StoresFound(u, cfa, a, stores, b);
      assert PhiCount(PhisAt(p0, b), v0, c) == if c in vars && PhiAllowed(u, c, b) then 1 else 0;
    }
  }

  lemma StoresOfVar(u: Promotion, a: nat, users: seq<Pos>, stores: seq<Pos>)
    requires a in u.vars && AreVars(u.f, u.vars) && (forall p :: p in users ==> Within(u.f, p))
    requires stores == StoresAmong(u.f, users)
    requires forall p :: p in users <==> IsUser(u.f, Alloc(a), p)
    ensures forall q :: q in stores <==> VarStoreAt(u, q) && InstAt(u.f, q).ptr == Alloc(a)
  {
    hide IsSetup, Dead, HasAlloc;
    assert Promotable(u.f, a);
  }

  /** Every promoted variable gets one empty phi in each block where the dominance of one of its stores that can
      be run ends, and no other phi is inserted. */
  method InsertPhis(target: FunctionObject, cfa: ControlFlowAnalysis, f: Function, vars: set<nat>, base: nat,
      ghost u: Promotion)
      returns (phiVars: map<nat, nat>, ghost phis: Phis)
    requires target.fn == f == u.f && vars == u.vars && base == u.base && AreVars(f, vars)
    requires Analysed(u, cfa) && target as object !in {cfa.cfg, cfa.tree}
    modifies target
    ensures Holding(u, target.fn, Edits(map[], phis), phiVars) && Analysed(u, cfa)
    ensures PhisPlaced(u, phis, phiVars, vars) && Fresh(phis)
  {
    hide IsSetup, ValidFunction, Holding, Analysed, AreVars, VarStoreAt, PhisPlaced, Fresh, Added, FrontiersOf;
    phiVars, phis := map[], map[];
    var next := base;
    BeginHolding(u);
    NothingPlaced(u);
    HasGraph(u);
    HasOrder(u);
    var todo := vars;
    assert vars - todo == {};
    while todo != {}
      invariant todo <= vars && Holding(u, target.fn, Edits(map[], phis), phiVars) && Analysed(u, cfa)
      invariant next >= u.base && forall id :: id in phiVars ==> id < next
      invariant PhisPlaced(u, phis, phiVars, vars - todo) && Fresh(phis)
    {
      var a :| a in todo;
      ghost var p0, v0, placed := phis, phiVars, vars - todo;
      todo := todo - {a};
      var users := Users(f, f.order, Alloc(a));
      UsersWithin(u, a, users);
      var stores := StoresAmong(f, users);
      StoresOfVar(u, a, users, stores);
      phiVars, next, phis := InsertPhisFor(target, cfa, a, stores, phiVars, next, u, phis);
      PlacedMore(u, cfa, a, stores, p0, v0, phis, phiVars, placed);
      assert vars - todo == placed + {a};
    }
    assert vars - todo == vars;
  }

  lemma UsersWithin(u: Promotion, a: nat, users: seq<Pos>)
    requires (forall c :: c in u.f.order ==> c in u.f.blocks) && users == Users(u.f, u.f.order, Alloc(a))
    requires forall c :: c in u.f.blocks ==> c in u.f.order
    ensures (forall p :: p in users ==> Within(u.f, p)) && forall p :: p in users <==> IsUser(u.f, Alloc(a), p)
  {
    hide IsSetup;
  }

  lemma BeginHolding(u: Promotion)
    ensures Holding(u, u.f, Edits(map[], map[]), map[])
  {
    hide IsSetup;
    RenameNothing(u.f);
    assert Now(u.f, map[], map[]).blocks == u.f.blocks by {
      forall b | b in u.f.blocks
        ensures PhisAt(map[], b) + RenameBlock(map[], u.f.blocks[b]) == u.f.blocks[b]
      {
        assert RenameFunction(map[], u.f).blocks[b] == u.f.blocks[b];
      }
    }
  }

  // ---- Removing stores

  function WithoutStores(vars: set<nat>, b: Block): Block {
    if b == [] then []
    else (if IsVarStore(vars, b[0]) then [] else [b[0]]) + WithoutStores(vars, b[1..])
  }

  function StoresRemoved(vars: set<nat>, f: Function): Function {
    Function(f.order, map b | b in f.blocks :: WithoutStores(vars, f.blocks[b]))
  }

  lemma {:induction false} WithoutMore(vars: set<nat>, a: nat, b: Block)
    ensures WithoutStores({a}, WithoutStores(vars, b)) == WithoutStores(vars + {a}, b)
  {
    if b != [] {
      WithoutMore(vars, a, b[1..]);
      if IsVarStore(vars, b[0]) {
        assert WithoutStores(vars, b) == WithoutStores(vars, b[1..]);
      } else {
        assert WithoutStores(vars, b)[1..] == WithoutStores(vars, b[1..]);
      }
    }
  }

  lemma RemovedMore(vars: set<nat>, a: nat, f: Function)
    ensures StoresRemoved({a}, StoresRemoved(vars, f)) == StoresRemoved(vars + {a}, f)
  {
    forall b | b in f.blocks
      ensures WithoutStores({a}, WithoutStores(vars, f.blocks[b])) == WithoutStores(vars + {a}, f.blocks[b])
    {
      WithoutMore(vars, a, f.blocks[b]);
    }
  }

  lemma {:induction false} WithoutNone(b: Block)
    ensures WithoutStores({}, b) == b
  {
    if b != [] {
      WithoutNone(b[1..]);
    }
  }

  lemma RemovedNone(f: Function)
    ensures StoresRemoved({}, f) == f
  {
    forall b | b in f.blocks
      ensures WithoutStores({}, f.blocks[b]) == f.blocks[b]
    {
      WithoutNone(f.blocks[b]);
    }
  }

  // Removes the stores of every variable; every variable has some.
  method RemoveStores(target: FunctionObject, vars: set<nat>) returns (changed: bool)
    modifies target
    ensures target.fn == StoresRemoved(vars, old(target.fn)) && (changed <==> vars != {})
  {
    changed := false;
    var todo := vars;
    RemovedNone(target.fn);
    assert vars - todo == {};
    while todo != {}
      invariant todo <= vars && target.fn == StoresRemoved(vars - todo, old(target.fn)) && (changed <==> todo != vars)
    {
      var a :| a in todo;
      RemovedMore(vars - todo, a, old(target.fn));
      assert vars - (todo - {a}) == (vars - todo) + {a};
      target.fn := StoresRemoved({a}, target.fn);
      todo := todo - {a};
      changed := true;
    }
    assert vars - todo == vars;
  }

  // A plan that replaces by s and promotes the variables.
  predicate Promoting(w: Plan, vars: set<nat>, s: Subst) {
    w.subst == s && w.cells == CellsOf(vars) && w.dropped == {}
  }

  lemma {:induction false} RewriteWithout(vars: set<nat>, s: Subst, w: Plan, b: Block)
    requires AvoidsVars(vars, s) && Promoting(w, vars, s)
    ensures WithoutStores(vars, RenameBlock(s, b)) == RewriteBlock(w, b)
  {
    if b != [] {
      RewriteWithout(vars, s, w, b[1..]);
      assert RenameBlock(s, b)[1..] == RenameBlock(s, b[1..]);
      StoreKept(vars, s, w, b[0]);
    }
  }

  lemma StoreKept(vars: set<nat>, s: Subst, w: Plan, i: Inst)
    requires AvoidsVars(vars, s) && Promoting(w, vars, s)
    ensures IsVarStore(vars, RenameInst(s, i)) <==> Drops(w, i)
  {
    if i.StoreInst? && i.ptr.Alloc? && i.ptr.id in vars {
      assert i.ptr in CellsOf(vars);
    }
  }

  lemma {:induction false} WithoutAppend(vars: set<nat>, a: Block, b: Block)
    ensures WithoutStores(vars, a + b) == WithoutStores(vars, a) + WithoutStores(vars, b)
  {
    if a == [] {
      assert a + b == b;
    } else {
      assert (a + b)[1..] == a[1..] + b;
      WithoutAppend(vars, a[1..], b);
    }
  }

  lemma {:induction false} PhisAreNoStores(vars: set<nat>, b: Block)
    requires forall k :: 0 <= k < |b| ==> b[k].PhiInst?
    ensures WithoutStores(vars, b) == b
  {
    if b != [] {
      PhisAreNoStores(vars, b[1..]);
    }
  }

  lemma PhisArePhis(u: Promotion, phis: Phis, phiVars: map<nat, nat>, b: BlockId)
    requires PhisOk(u, phis, phiVars)
    ensures forall k :: 0 <= k < |PhisAt(phis, b)| ==> PhisAt(phis, b)[k].PhiInst? && PhisAt(phis, b)[k].id >= u.base
    ensures u.vars == {} ==> PhisAt(phis, b) == []
  {
    hide IsSetup, PhiAllowed;
    forall k | 0 <= k < |PhisAt(phis, b)|
      ensures PhiOk(u, phiVars, b, PhisAt(phis, b)[k])
    {
    }
    assert PhisAt(phis, b) != [] ==> PhiOk(u, phiVars, b, PhisAt(phis, b)[0]);
  }

  // What the run leaves is the plan carried out.
  lemma PlanCarriedOut(u: Promotion, g: Edits, phiVars: map<nat, nat>, now: Function)
    requires Holding(u, now, g, phiVars) && AvoidsVars(u.vars, g.s)
    ensures StoresRemoved(u.vars, now) == Rewritten(u.f, PlanOf(u, g.s, g.phis, phiVars))
  {
    hide IsSetup, WithoutStores, RewriteBlock, RenameBlock, PhisOk, HeldFrom, MergedIn;
    var w := PlanOf(u, g.s, g.phis, phiVars);
    forall b | b in u.f.blocks
      ensures WithoutStores(u.vars, PhisAt(g.phis, b) + RenameBlock(g.s, u.f.blocks[b]))
          == NewPhis(w, b) + RewriteBlock(w, u.f.blocks[b])
    {
      PhisArePhis(u, g.phis, phiVars, b);
      WithoutAppend(u.vars, PhisAt(g.phis, b), RenameBlock(g.s, u.f.blocks[b]));
      PhisAreNoStores(u.vars, PhisAt(g.phis, b));
      RewriteWithout(u.vars, g.s, w, u.f.blocks[b]);
    }
    assert StoresRemoved(u.vars, now).blocks == Rewritten(u.f, w).blocks;
  }

  // ---- One run of the pass

  lemma NothingPromoted(u: Promotion, g: Edits, phiVars: map<nat, nat>, now: Function)
    requires u.vars == {} && Replaced(u, g.s, AtEnd(u)) && Holding(u, now, g, phiVars)
    ensures StoresRemoved(u.vars, now) == u.f
  {
    hide IsSetup, PhisOk, WithoutStores, RenameInst, Settled;
    assert g.s == map[];
    RemovedNone(now);
    RenameNothing(u.f);
    forall b | b in u.f.blocks
      ensures PhisAt(g.phis, b) + RenameBlock(g.s, u.f.blocks[b]) == u.f.blocks[b]
    {
      PhisArePhis(u, g.phis, phiVars, b);
      assert RenameFunction(map[], u.f).blocks[b] == u.f.blocks[b];
    }
    assert now.blocks == u.f.blocks;
  }

  lemma ReplacedNoAddresses(u: Promotion, s: Subst)
    requires Replaced(u, s, AtEnd(u))
    ensures AvoidsVars(u.vars, s)
  {
    hide IsSetup;
  }

  lemma SameVars(f: Function, v: set<nat>, w: set<nat>)
    requires AreVars(f, v) && AreVars(f, w)
    ensures v == w
  {
    hide Dead, Promotable, HasAlloc;
  }

  /** The function is what a run makes of it: a plan of that kind has been carried out. */
  ghost predicate Promoted(u: Setup, plan: Plan, now: Function) {
    now == Rewritten(u.f, plan)
      && exists phiVars: map<nat, nat> {:trigger Promotes(u, plan, phiVars)} :: Promotes(u, plan, phiVars)
  }

  lemma {:induction false} AlikeCount(a: Block, b: Block, phiVars: map<nat, nat>, c: nat)
    requires AlikePhis(a, b)
    ensures PhiCount(a, phiVars, c) == PhiCount(b, phiVars, c)
  {
    if a != [] {
      AlikeCount(a[1..], b[1..], phiVars, c);
    }
  }

  lemma AllAlikeBack(f: Function, p: Phis, q: Phis)
    requires AllAlike(f, p, q)
    ensures AllAlike(f, q, p)
  {
  }

  lemma PlanHas(u: Setup, s: Subst, phis: Phis, phiVars: map<nat, nat>)
    ensures var w := PlanOf(u, s, phis, phiVars);
      && w.subst == s && w.phis == phis && w == PlanOf(u, w.subst, w.phis, phiVars) && Promoting(w, u.vars, s)
      && FlowBy(u, w, phiVars) == Flow(u.f, s, phis, phiVars)
  {
  }

  // The walk has filled the phis.
  lemma PhisAreFilled(u: Promotion, g: Edits, phiVars: map<nat, nat>, t: Track, d: BlockId, k: nat)
    requires Walked(u, g, t) && t.phiVars == phiVars && PhisOk(u, g.phis, phiVars)
    requires d in u.f.blocks && k < |PhisAt(g.phis, d)|
    ensures PhiFilled(u, Flow(u.f, g.s, g.phis, phiVars), d, PhisAt(g.phis, d)[k])
  {
    hide IsSetup, PhiAllowed, AlikePhis, PushedBy, IsEdge, LoadsHold, Replaced, PhisOk;
    OrderInside(u);
    var i := PhisAt(g.phis, d)[k];
    PhiIsOk(u, g.phis, phiVars, d, k);
    assert PhiHolds(FlowOf(u, g.s, t), t.order, d, i);
    AllAlikeBack(u.f, g.phis, t.phis);
    forall b
      ensures Lookup(i.incoming, b) == Supplied(Flow(u.f, g.s, g.phis, phiVars), u.order, b, d, phiVars[i.id])
    {
      assert Lookup(i.incoming, b) == Supplied(FlowOf(u, g.s, t), t.order, b, d, phiVars[i.id]);
      AlikePushedBy(FlowOf(u, g.s, t), g.phis, t.order, b, phiVars[i.id]);
    }
  }

  // It has replaced the loads.
  lemma LoadsAreTaken(u: Promotion, g: Edits, phiVars: map<nat, nat>, t: Track, n: nat, k: nat)
    requires Walked(u, g, t) && t.phiVars == phiVars && n < |u.order| && k < |BlockOf(u.f, u.order[n])|
    ensures LoadTakes(u, Flow(u.f, g.s, g.phis, phiVars), n, k)
  {
    hide IsSetup, AlikePhis, Pushed, PhiFor, LastStored, PhisHold, Replaced, Before, CanRun;
    OrderInside(u);
    var b := u.order[n];
    var i, x := u.f.blocks[b][k], Flow(u.f, g.s, g.phis, phiVars);
    if IsVarLoad(u.vars, i) {
      LoadPlace(u, Pos(b, k), i.id);
      assert Passed(AtEnd(u), Pos(b, k));
      assert Lookup(g.s, i.id) == PushedFor(u, FlowOf(u, g.s, t), t.order, i.id);
      BeforeIs(u.order, n);
      AllAlikeBack(u.f, g.phis, t.phis);
      assert AlikePhis(PhisAt(t.phis, b), PhisAt(g.phis, b));
      AlikeFor(PhisAt(t.phis, b), PhisAt(g.phis, b), phiVars, i.ptr.id);
      AlikePushed(FlowOf(u, g.s, t), g.phis, u.order[..n], i.ptr.id);
    }
  }

  lemma NothingLeftToReplace(u: Promotion, s: Subst)
    requires Replaced(u, s, AtEnd(u))
    ensures Resolved(s) && forall z :: z in s ==> VarLoadAt(u, z) && u.at[z].block in u.order
  {
    hide IsSetup;
  }

  lemma PhisAreNew(u: Promotion, g: Edits, phiVars: map<nat, nat>, t: Track)
    requires AllAlike(u.f, g.phis, t.phis) && PhisOk(u, g.phis, phiVars) && Distinct(t.phis)
    ensures PhisNew(u.at, PlanOf(u, g.s, g.phis, phiVars))
  {
    hide IsSetup, PlanOf, PhisOk;
    PlanHas(u, g.s, g.phis, phiVars);
    var w := PlanOf(u, g.s, g.phis, phiVars);
    forall b, k | b in w.phis && 0 <= k < |w.phis[b]|
      ensures w.phis[b][k].PhiInst? && w.phis[b][k].id !in u.at
    {
      assert w.phis[b][k] == PhisAt(g.phis, b)[k];
      PhiIsNew(u, g.phis, phiVars, b, k);
    }
    forall b, c, x | FindPhi(NewPhis(w, b), x).Some? && FindPhi(NewPhis(w, c), x).Some?
      ensures b == c
    {
      PhiInOneBlock(u, g, phiVars, t, b, c, x);
    }
  }

  lemma PhiIsNew(u: Promotion, phis: Phis, phiVars: map<nat, nat>, b: BlockId, k: nat)
    requires PhisOk(u, phis, phiVars) && k < |PhisAt(phis, b)|
    ensures PhisAt(phis, b)[k].PhiInst? && PhisAt(phis, b)[k].id !in u.at && b in u.f.blocks
  {
    hide IsSetup, F.InFrontier;
    assert PhiOk(u, phiVars, b, PhisAt(phis, b)[k]);
    PromotionFacts(u);
    var a := phiVars[PhisAt(phis, b)[k].id];
    var q :| VarStoreAt(u, q) && InstAt(u.f, q).ptr == Alloc(a) && CanRun(u.f, q.block)
      && F.InFrontier(CfgOf(u.f), q.block, b);
    FrontierIsBlock(u, q.block, b);
  }

  lemma PhiInOneBlock(u: Promotion, g: Edits, phiVars: map<nat, nat>, t: Track, b: BlockId, c: BlockId, x: nat)
    requires AllAlike(u.f, g.phis, t.phis) && PhisOk(u, g.phis, phiVars) && Distinct(t.phis)
    requires FindPhi(PhisAt(g.phis, b), x).Some? && FindPhi(PhisAt(g.phis, c), x).Some?
    ensures b == c
  {
    hide IsSetup, PhisOk, FindPhi;
    FindPhiSome(PhisAt(g.phis, b), x);
    FindPhiSome(PhisAt(g.phis, c), x);
    var j :| 0 <= j < |PhisAt(g.phis, b)| && PhisAt(g.phis, b)[j] == PhiInst(x, FindPhi(PhisAt(g.phis, b), x).value);
    var k :| 0 <= k < |PhisAt(g.phis, c)| && PhisAt(g.phis, c)[k] == PhiInst(x, FindPhi(PhisAt(g.phis, c), x).value);
    PhiIsNew(u, g.phis, phiVars, b, j);
    PhiIsNew(u, g.phis, phiVars, c, k);
    assert AlikePhis(PhisAt(g.phis, b), PhisAt(t.phis, b)) && AlikePhis(PhisAt(g.phis, c), PhisAt(t.phis, c));
    assert SamePhi(PhisAt(t.phis, b)[j], PhisAt(t.phis, c)[k]);
  }

  /** What the walk leaves is a plan of the kind that a run carries out. */
  lemma WalkPromotes(u: Promotion, g: Edits, phiVars: map<nat, nat>, t: Track)
    requires Walked(u, g, t) && t.phiVars == phiVars && PhisPlaced(u, t.phis, phiVars, u.vars) && Fresh(t.phis)
    requires PhisOk(u, g.phis, phiVars)
    ensures Promotes(u, PlanOf(u, g.s, g.phis, phiVars), phiVars)
  {
    hide IsSetup, PhiAllowed, AlikePhis, PhiCount, PhisOk, PlanOf, PhisHold, LoadsHold, Replaced, PhisNew, PhiFilled,
      LoadTakes, Distinct;
    PlanHas(u, g.s, g.phis, phiVars);
    var w := PlanOf(u, g.s, g.phis, phiVars);
    forall d, a | d in u.f.blocks && a in u.vars
      ensures PhiCount(PhisAt(w.phis, d), phiVars, a) == if PhiAllowed(u, a, d) then 1 else 0
    {
      AlikeCount(PhisAt(g.phis, d), PhisAt(t.phis, d), phiVars, a);
      assert PhiCount(PhisAt(t.phis, d), phiVars, a) == if PhiAllowed(u, a, d) then 1 else 0;
    }
    forall d, k | d in u.f.blocks && 0 <= k < |PhisAt(w.phis, d)|
      ensures PhiFilled(u, FlowBy(u, w, phiVars), d, PhisAt(w.phis, d)[k])
    {
      PhisAreFilled(u, g, phiVars, t, d, k);
    }
    forall n: nat, k: nat | n < |u.order| && k < |BlockOf(u.f, u.order[n])|
      ensures LoadTakes(u, FlowBy(u, w, phiVars), n, k)
    {
      LoadsAreTaken(u, g, phiVars, t, n, k);
    }
    NothingLeftToReplace(u, g.s);
    PhisAreNew(u, g, phiVars, t);
  }

  /** One run: phis are inserted, the walk replaces the loads and fills the phis, and the stores are removed. */
  method Run(target: FunctionObject, cfa: ControlFlowAnalysis, base: nat, ghost u: Promotion)
      returns (changed: bool, ghost plan: Plan)
    requires target.fn == u.f && base == u.base && AreVars(u.f, u.vars)
    requires Analysed(u, cfa) && target as object !in {cfa.cfg, cfa.tree}
    modifies target
    ensures Analysed(u, cfa) && (changed <==> u.vars != {}) && (!changed ==> target.fn == u.f)
    ensures Promoted(u, plan, target.fn)
  {
    hide *;
    HasOrder(u);
    var f := target.fn;
    var vars := CollectVars(f);
    SameVars(f, vars, u.vars);
    var phiVars;
    ghost var phis;
    phiVars, phis := InsertPhis(target, cfa, f, vars, base, u);
    ghost var g, t;
    g, t := WalkTree(target, cfa, vars, phiVars, u, phis);
    plan := PlanOf(u, g.s, g.phis, phiVars);
    HoldingPhis(u, target.fn, g, phiVars);
    WalkPromotes(u, g, phiVars, t);
    WalkReplaced(u, g, t);
    ReplacedNoAddresses(u, g.s);
    PlanCarriedOut(u, g, phiVars, target.fn);
    if u.vars == {} {
      NothingPromoted(u, g, phiVars, target.fn);
    }
    changed := RemoveStores(target, vars);
    MakePromoted(u, plan, phiVars, target.fn);
  }

  lemma WalkReplaced(u: Promotion, g: Edits, t: Track)
    requires Walked(u, g, t)
    ensures Replaced(u, g.s, AtEnd(u))
  {
    hide IsSetup, PhisHold, LoadsHold, Replaced;
  }

  lemma MakePromoted(u: Setup, plan: Plan, phiVars: map<nat, nat>, now: Function)
    requires now == Rewritten(u.f, plan) && Promotes(u, plan, phiVars)
    ensures Promoted(u, plan, now)
  {
    hide Promotes;
  }

  /** A phi has from a block that stores to its variable what that stores last. */
  lemma PhiTakesStored(u: Promotion, w: Plan, phiVars: map<nat, nat>, q: Pos, d: BlockId, k: nat)
    requires Promotes(u, w, phiVars) && d in u.f.blocks && k < |PhisAt(w.phis, d)| && PhisAt(w.phis, d)[k].PhiInst?
    requires PhisAt(w.phis, d)[k].id in phiVars && Within(u.f, q)
    requires StoresTo(InstAt(u.f, q), Alloc(phiVars[PhisAt(w.phis, d)[k].id]))
    requires forall m :: q.index < m < |u.f.blocks[q.block]| ==> !StoresTo(u.f.blocks[q.block][m], InstAt(u.f, q).ptr)
    requires CanRun(u.f, q.block) && ValidFunction(u.f) && HasEdge(CfgOf(u.f), q.block, d)
    ensures var incoming := PhisAt(w.phis, d)[k].incoming;
      q.block in incoming && incoming[q.block] == Apply(w.subst, InstAt(u.f, q).val)
  {
    hide IsSetup, HasEdge, CfgOf, CanRun, LastStored, PhiFor, PhiCount, PhiAllowed, LoadTakes, PlanOf, PhisNew,
      Resolved, ValidFunction;
    var i := PhisAt(w.phis, d)[k];
    var a, x := phiVars[i.id], FlowBy(u, w, phiVars);
    OrderInside(u);
    HasGraph(u);
    assert IsEdge(u.f, q.block, d);
    assert PhiFilled(u, x, d, i);
    assert Lookup(i.incoming, q.block) == Supplied(x, u.order, q.block, d, a);
    LastStoredIs(u.f.blocks[q.block], Alloc(a), q.index);
    PushedInOrder(x, u.order, q.block, a);
  }

  // What a block pushes itself is what was pushed last when it has been through.
  lemma {:induction false} PushedInOrder(w: Flow, order: seq<BlockId>, b: BlockId, a: nat)
    requires b in order && b in w.f.blocks && LastStored(w.f.blocks[b], Alloc(a)).Some?
    ensures PushedBy(w, order, b, a) == Some(Apply(w.s, LastStored(w.f.blocks[b], Alloc(a)).value))
    decreases |order|
  {
    hide LastStored;
    var front := order[..|order| - 1];
    if order[|order| - 1] == b {
      assert order == front + [b];
      PushedNext(w, front, b, a);
    } else {
      PushedInOrder(w, front, b, a);
    }
  }

  // ---- The pass

  // The setup of the second run, which finds no variable.
  lemma SecondSetup(u: Promotion, plan: Plan) returns (v: Promotion)
    requires NoneFreed(u) && Planned(u, plan)
    ensures v == Setup(Rewritten(u.f, plan), map[], {}, u.base, u.index, u.doms, u.order) && AreVars(v.f, {})
    ensures ValidFunction(v.f) && ValidFunction(u.f) && CfgOf(v.f) == CfgOf(u.f)
  {
    hide IsSetup, NoneFreed, AreVars, Addresses, Reachable, ValidFunction;
    HasOrder(u);
    SecondRunFinds(u, plan, {});
    SameGraph(u.f, plan);
    v := SecondPromotion(u, plan);
  }

  lemma PromotionTree(u: Promotion)
    ensures ValidFunction(u.f) && Preorder(CfgOf(u.f), u.order)
    ensures DT.ExactParents(CfgOf(u.f), u.doms) && DC.Climbs(CfgOf(u.f).entry, u.index, u.doms)
  {
    hide WellFormed, NoneStored, ValidFunction;
  }

  lemma SecondPromotion(u: Promotion, plan: Plan) returns (v: Promotion)
    requires ValidFunction(u.f) && ValidFunction(Rewritten(u.f, plan)) && CfgOf(Rewritten(u.f, plan)) == CfgOf(u.f)
    ensures v == Setup(Rewritten(u.f, plan), map[], {}, u.base, u.index, u.doms, u.order)
  {
    hide IsSetup, RewriteBlock, DT.ExactParents, DC.Climbs, CfgOf, Reachable, Preorder;
    PromotionTree(u);
    var w := Setup(Rewritten(u.f, plan), map[], {}, u.base, u.index, u.doms, u.order);
    EmptySetup(w);
    v := w;
  }

  lemma EmptySetup(u: Setup)
    requires u.vars == {} && ValidFunction(u.f) && Preorder(CfgOf(u.f), u.order)
    requires DT.ExactParents(CfgOf(u.f), u.doms) && DC.Climbs(CfgOf(u.f).entry, u.index, u.doms)
    ensures IsSetup(u)
  {
    hide ValidFunction, DT.ExactParents, DC.Climbs, Preorder;
  }

  lemma AnalysisStays(u: Promotion, v: Promotion, cfa: ControlFlowAnalysis)
    requires Analysed(u, cfa) && ValidFunction(v.f) && ValidFunction(u.f) && CfgOf(v.f) == CfgOf(u.f)
    requires v.index == u.index && v.doms == u.doms && v.order == u.order
    ensures Analysed(v, cfa)
  {
    hide IsSetup, ValidFunction, Waiting;
  }

  lemma PromotedIs(u: Promotion, plan: Plan, now: Function)
    requires Promoted(u, plan, now)
    ensures now == Rewritten(u.f, plan) && Planned(u, plan)
  {
    hide IsSetup, Promotes;
    var phiVars: map<nat, nat> :| Promotes(u, plan, phiVars);
    IsPlanned(u, plan, phiVars);
  }

  /** The outer loop stops after at most two runs if the first frees no variable, and no variable is left. */
  method RunOn(target: FunctionObject, cfa: ControlFlowAnalysis, base: nat, ghost u: Promotion)
      returns (runs: nat, ghost plan: Plan)
    requires target.fn == u.f && base == u.base && AreVars(u.f, u.vars) && NoneFreed(u) && Analysed(u, cfa)
    requires target as object !in {cfa.cfg, cfa.tree}
    modifies target
    ensures 1 <= runs <= 2 && AreVars(target.fn, {})
    ensures runs == 1 ==> target.fn == u.f
    ensures runs == 2 ==> Promoted(u, plan, target.fn)
  {
    hide *;
    runs := 0;
    plan := Plan(map[], {}, {}, map[], map[], map[]);
    ghost var v := u;
    var changed := true;
    while changed
      invariant changed ==>
          runs < 2 && target.fn == v.f && base == v.base && AreVars(v.f, v.vars) && Analysed(v, cfa)
            && (runs == 0 ==> v == u)
      invariant runs <= 2 && (runs == 0 ==> changed) && (!changed ==> AreVars(target.fn, {}))
      invariant runs == 1 ==> if changed then v.vars == {} else target.fn == u.f
      invariant runs == 2 || (runs == 1 && changed) ==> Promoted(u, plan, target.fn)
      decreases 2 - runs
    {
      ghost var done: Plan;
      changed, done := Run(target, cfa, base, v);
      if changed {
        plan := done;
        PromotedIs(u, plan, target.fn);
        v := SecondSetup(u, plan);
        AnalysisStays(u, v, cfa);
      }
      runs := runs + 1;
    }
  }

  /** Promotion keeps every run of the functions for which the walk is right: same blocks, same returned word, same
      memory and the same cells apart from the promoted variables; and every promoted load has the value it is
      replaced by. */
  lemma PromotionKeepsRuns(u: Promotion, plan: Plan, now: Function, st: State, n: nat)
    requires u.vars != {} && Promoted(u, plan, now) && Served(u) && WellFormed(u.f, u.at)
    requires StartsClear(u.f, CellsOf(u.vars), st)
    ensures SameOutcome(u.at, plan, RunFunction(u.f, st, n), RunFunction(now, st, n))
    ensures CopiesHoldAt(u.f, u.at, plan, RunFunction(u.f, st, n), RunFunction(now, st, n))
  {
    hide IsSetup, Promotes, Served, Sound, WellFormed, StartsClear, SameOutcome, CopiesHoldAt, RunFunction, Rewritten;
    var phiVars: map<nat, nat> :| Promotes(u, plan, phiVars);
    PlanIsSound(u, plan, phiVars);
    PromotesCells(u, plan, phiVars);
    SoundPlanKeepsRuns(u.f, u.at, plan, st, n);
  }

  lemma PromotesCells(u: Setup, plan: Plan, phiVars: map<nat, nat>)
    requires Promotes(u, plan, phiVars)
    ensures plan.cells == CellsOf(u.vars)
  {
    hide Fills, PhisNew;
  }
}

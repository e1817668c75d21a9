/** A function whose promotion takes a third run: the first one frees a variable. */
module FreedVariable {
  import opened Words
  import opened Graph
  import opened Dominance
  import opened Ir
  import opened Ssa
  import opened Rewrite
  import opened FunctionObject
  import opened TreeWalk
  import opened PromotedVariables
  import opened NextRun
  import A = AllocPromoter
  import DT = DominatorTree

  // Variable 1 holds the address of variable 0.
  function TakesAddress(): Function {
    Function([0], map[0 := [
      AllocInst(0), AllocInst(1), StoreInst(0, Alloc(0), Const(5)), StoreInst(1, Alloc(1), Alloc(0)),
        RetInst(2, Const(0))
    ]])
  }

  function TakesAddressSetup(): Setup {
    Setup(TakesAddress(), map[], {1}, 0, map[0 := 0], map[0 := 0], [0])
  }

  lemma ItsFlow()
    ensures ValidFunction(TakesAddress()) && CfgOf(TakesAddress()) == Digraph(0, [])
  {
  }

  lemma ItsInsts(p: Pos)
    requires Within(TakesAddress(), p)
    ensures p.block == 0 && p.index < 5
    ensures InstAt(TakesAddress(), p) ==
      if p.index == 0 then AllocInst(0)
      else if p.index == 1 then AllocInst(1)
      else if p.index == 2 then StoreInst(0, Alloc(0), Const(5))
      else if p.index == 3 then StoreInst(1, Alloc(1), Alloc(0))
      else RetInst(2, Const(0))
  {
  }

  lemma ItHas(k: nat)
    requires k < 5
    ensures Within(TakesAddress(), Pos(0, k))
  {
  }

  lemma ItsUsers(p: Pos, a: nat)
    requires IsUser(TakesAddress(), Alloc(a), p)
    ensures a < 2 && p.block == 0 && (p.index == 3 || (p.index == 2 && a == 0))
  {
    ItsInsts(p);
  }

  lemma ItsAllocs(a: nat)
    ensures HasAlloc(TakesAddress(), a) <==> a < 2
  {
    hide TakesAddress;
    if HasAlloc(TakesAddress(), a) {
      var p :| Within(TakesAddress(), p) && InstAt(TakesAddress(), p) == AllocInst(a);
      ItsInsts(p);
    }
    if a < 2 {
      ItHas(a);
      ItsInsts(Pos(0, a));
    }
  }

  lemma ItsVars()
    ensures AreVars(TakesAddress(), {1})
  {
    hide TakesAddress, HasAlloc;
    var f := TakesAddress();
    forall a
      ensures HasAlloc(f, a) <==> a < 2
    {
      ItsAllocs(a);
    }
    ItHas(3);
    ItsInsts(Pos(0, 3));
    assert IsUser(f, Alloc(1), Pos(0, 3)) && IsUser(f, Alloc(0), Pos(0, 3));
    forall p | IsUser(f, Alloc(1), p)
      ensures p == Pos(0, 3)
    {
      ItsUsers(p, 1);
    }
  }

  lemma ItsForm()
    ensures WellFormed(TakesAddress(), map[])
  {
    hide TakesAddress, Dom, Reachable;
    var f := TakesAddress();
    ItsFlow();
    ItsShape();
    forall p | Within(f, p)
      ensures OperandsAvail(f, map[], p) && IncomingAvail(f, map[], p)
      ensures IsTerminator(InstAt(f, p)) ==> p.index == |f.blocks[p.block]| - 1
    {
      ItsInsts(p);
    }
    forall k | 0 <= k < |f.blocks[Entry(f)]|
      ensures !f.blocks[Entry(f)][k].PhiInst?
    {
      assert f.blocks[Entry(f)][k] == InstAt(f, Pos(0, k));
      ItsInsts(Pos(0, k));
    }
    ItsPlaces();
  }

  lemma ItsShape()
    ensures |TakesAddress().order| > 0 && Entry(TakesAddress()) == 0
    ensures 0 in TakesAddress().blocks && |TakesAddress().blocks[0]| == 5
  {
  }

  lemma ItsPlaces()
    ensures Located(TakesAddress(), map[])
  {
    hide TakesAddress;
    forall p | Within(TakesAddress(), p)
      ensures !DefinesValue(InstAt(TakesAddress(), p))
    {
      ItsInsts(p);
    }
  }

  lemma ItsStores()
    ensures ValidFunction(TakesAddress()) && NoneStored(TakesAddress(), {1})
  {
    hide TakesAddress, Reachable, ValidFunction, CfgOf;
    ItsFlow();
    forall p | Within(TakesAddress(), p) && InstAt(TakesAddress(), p).StoreInst?
      ensures !IsVar({1}, InstAt(TakesAddress(), p).val)
    {
      ItsInsts(p);
    }
  }

  // The function meets what the promoter demands.
  lemma ItIsReady()
    ensures IsSetup(TakesAddressSetup()) && AreVars(TakesAddressSetup().f, TakesAddressSetup().vars)
  {
    hide TakesAddress, WellFormed, NoneStored, AreVars, DT.ExactParents, Preorder;
    ItsFlow();
    ItsForm();
    ItsStores();
    ItsVars();
    TrivialTree(TakesAddress());
  }

  lemma ZeroIsFreed()
    ensures Freed(TakesAddressSetup(), 0) && !NoneFreed(TakesAddressSetup())
  {
    hide TakesAddress;
    var u := TakesAddressSetup();
    ItHas(0);
    ItHas(2);
    ItsInsts(Pos(0, 0));
    ItsInsts(Pos(0, 2));
    assert HasAlloc(u.f, 0);
    CarriesItself(u, 0);
    assert StoreUses(u, Pos(0, 2), 0);
    forall p | StoreUses(u, p, 0)
      ensures CarriesAddress(u, InstAt(u.f, p).ptr, 0)
    {
      ItsInsts(p);
    }
  }

  lemma OneIsNot(c: nat)
    requires Freed(TakesAddressSetup(), c)
    ensures c == 0
  {
    hide TakesAddress;
    var u := TakesAddressSetup();
    var p :| StoreUses(u, p, c);
    ItsInsts(p);
    CarriesPlainly(c, InstAt(u.f, p).ptr);
    CarriesPlainly(c, InstAt(u.f, p).val);
  }

  // Nothing is loaded, so an address is only carried by itself.
  lemma CarriesPlainly(c: nat, v: Value)
    ensures CarriesAddress(TakesAddressSetup(), v, c) ==> v == Alloc(c)
  {
    hide TakesAddress;
    var u := TakesAddressSetup();
    assert forall x :: !VarLoadAt(u, x);
  }

  /** After the first run has promoted variable 1, the second finds variable 0, so there is a third. */
  lemma ThirdRun(plan: Plan, now: Function)
    requires A.Promoted(TakesAddressSetup(), plan, now)
    ensures IsSetup(TakesAddressSetup()) && AreVars(TakesAddress(), {1}) && !NoneFreed(TakesAddressSetup())
    ensures AreVars(now, {0})
  {
    hide TakesAddress, IsSetup, AreVars, Planned, Freed, NoneFreed, Rewritten, A.Promoted;
    ItIsReady();
    ZeroIsFreed();
    A.PromotedIs(TakesAddressSetup(), plan, now);
    forall c
      ensures c in {0} <==> Freed(TakesAddressSetup(), c)
    {
      if Freed(TakesAddressSetup(), c) {
        OneIsNot(c);
      }
    }
    SecondRunFinds(TakesAddressSetup(), plan, {0});
  }
}

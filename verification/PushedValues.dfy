/** What a walk over blocks leaves on the stacks of variables, said in terms of blocks, phis and stores. */
module PushedValues {
  import opened Words
  import opened Graph
  import opened Ir
  import opened Ssa
  import opened Rewrite

  type Phis = map<BlockId, Block>

  function PhisAt(phis: Phis, b: BlockId): Block {
    if b in phis then phis[b] else []
  }

  // The last of the phis that stands for the variable.
  function PhiFor(phis: Block, phiVars: map<nat, nat>, a: nat): Option<nat> {
    if phis == [] then None
    else
      var i := phis[|phis| - 1];
      if i.PhiInst? && i.id in phiVars && phiVars[i.id] == a then Some(i.id)
      else PhiFor(phis[..|phis| - 1], phiVars, a)
  }

  // A function, the replacements of its loads, and the phis that have been put in front of its blocks; phiVars says
  // for which variables those stand.
  datatype Flow = Flow(f: Function, s: Subst, phis: Phis, phiVars: map<nat, nat>)

  // What some phis and the instructions behind them push for the variable last.
  function PushedIn(w: Flow, phis: Block, own: Block, a: nat): Option<Value> {
    if LastStored(own, Alloc(a)).Some? then Some(Apply(w.s, LastStored(own, Alloc(a)).value))
    else if PhiFor(phis, w.phiVars, a).Some? then Some(Def(PhiFor(phis, w.phiVars, a).value))
    else None
  }

  function BlockOf(f: Function, b: BlockId): Block {
    if b in f.blocks then f.blocks[b] else []
  }

  // The value pushed last for the variable, when the walk has been through the blocks and then a part of another.
  function PushedWith(w: Flow, order: seq<BlockId>, phis: Block, own: Block, a: nat): Option<Value>
    decreases |order|, 1
  {
    var here := PushedIn(w, phis, own, a);
    if here.Some? then here else Pushed(w, order, a)
  }

  /** The value pushed last for the variable, when the walk has been through the blocks: what the latest of them that
      stores to it stores last, or a phi for it in a later one. */
  function Pushed(w: Flow, order: seq<BlockId>, a: nat): Option<Value>
    decreases |order|, 0
  {
    if order == [] then None
    else
      var b := order[|order| - 1];
      PushedWith(w, order[..|order| - 1], PhisAt(w.phis, b), BlockOf(w.f, b), a)
  }

  // The same when the walk had just been through block b.
  function PushedBy(w: Flow, order: seq<BlockId>, b: BlockId, a: nat): Option<Value> {
    if order == [] then None
    else if order[|order| - 1] == b then Pushed(w, order, a)
    else PushedBy(w, order[..|order| - 1], b, a)
  }

  ghost predicate IsEdge(f: Function, b: BlockId, d: BlockId) {
    |f.order| > 0 && (forall c :: c in f.order ==> c in f.blocks) && HasEdge(CfgOf(f), b, d)
  }

  /** What a phi for the variable in block d takes from block b. */
  ghost function Supplied(w: Flow, order: seq<BlockId>, b: BlockId, d: BlockId, a: nat): Option<Value> {
    if IsEdge(w.f, b, d) then PushedBy(w, order, b, a) else None
  }

  lemma PushedNext(w: Flow, order: seq<BlockId>, b: BlockId, a: nat)
    ensures Pushed(w, order + [b], a) == PushedWith(w, order, PhisAt(w.phis, b), BlockOf(w.f, b), a)
  {
    assert (order + [b])[..|order|] == order;
  }

  lemma PushedByNext(w: Flow, order: seq<BlockId>, c: BlockId, b: BlockId, a: nat)
    ensures PushedBy(w, order + [c], b, a)
        == if b == c then Pushed(w, order + [c], a) else PushedBy(w, order, b, a)
  {
    assert (order + [c])[..|order|] == order;
  }

  lemma {:induction false} NotPushedBy(w: Flow, order: seq<BlockId>, b: BlockId, a: nat)
    requires b !in order
    ensures PushedBy(w, order, b, a) == None
  {
    if order != [] {
      NotPushedBy(w, order[..|order| - 1], b, a);
    }
  }

  lemma LastStoredNext(b: Block, i: Inst, cell: Value)
    ensures LastStored(b + [i], cell) == if StoresTo(i, cell) then Some(i.val) else LastStored(b, cell)
  {
    assert (b + [i])[..|b|] == b;
  }

  lemma PhiForNext(phis: Block, phiVars: map<nat, nat>, i: Inst, a: nat)
    ensures PhiFor(phis + [i], phiVars, a)
        == if i.PhiInst? && i.id in phiVars && phiVars[i.id] == a then Some(i.id) else PhiFor(phis, phiVars, a)
  {
    assert (phis + [i])[..|phis|] == phis;
  }

  lemma {:induction false} LastStoredAt(b: Block, cell: Value) returns (m: nat)
    requires LastStored(b, cell).Some?
    ensures m < |b| && StoresTo(b[m], cell) && b[m].val == LastStored(b, cell).value
    ensures forall k :: m < k < |b| ==> !StoresTo(b[k], cell)
  {
    if StoresTo(b[|b| - 1], cell) {
      m := |b| - 1;
    } else {
      m := LastStoredAt(b[..|b| - 1], cell);
    }
  }

  /** The last store to the cell is what is stored last. */
  lemma {:induction false} LastStoredIs(b: Block, cell: Value, m: nat)
    requires m < |b| && StoresTo(b[m], cell) && forall k :: m < k < |b| ==> !StoresTo(b[k], cell)
    ensures LastStored(b, cell) == Some(b[m].val)
    decreases |b|
  {
    if m < |b| - 1 {
      assert b[|b| - 1] == b[|b| - 1];
      LastStoredIs(b[..|b| - 1], cell, m);
    }
  }

  lemma {:induction false} NothingStored(b: Block, cell: Value)
    requires forall k :: 0 <= k < |b| ==> !StoresTo(b[k], cell)
    ensures LastStored(b, cell) == None
    decreases |b|
  {
    if b != [] {
      NothingStored(b[..|b| - 1], cell);
    }
  }

  lemma {:induction false} PhiForIn(phis: Block, phiVars: map<nat, nat>, a: nat)
    requires PhiFor(phis, phiVars, a).Some?
    ensures PhiFor(phis, phiVars, a).value in phiVars
  {
    if !(phis[|phis| - 1].PhiInst? && phis[|phis| - 1].id in phiVars && phiVars[phis[|phis| - 1].id] == a) {
      PhiForIn(phis[..|phis| - 1], phiVars, a);
    }
  }

  // ---- Phis that have only changed in their values

  predicate AlikePhis(a: Block, b: Block) {
    |a| == |b| && forall k :: 0 <= k < |a| ==> a[k].PhiInst? && b[k].PhiInst? && a[k].id == b[k].id
  }

  lemma {:induction false} AlikeFor(a: Block, b: Block, phiVars: map<nat, nat>, x: nat)
    requires AlikePhis(a, b)
    ensures PhiFor(a, phiVars, x) == PhiFor(b, phiVars, x)
    decreases |a|
  {
    if a != [] {
      AlikeFor(a[..|a| - 1], b[..|b| - 1], phiVars, x);
    }
  }

  ghost predicate AllAlike(f: Function, p: Phis, q: Phis) {
    forall b {:trigger PhisAt(p, b)} {:trigger PhisAt(q, b)} :: b in f.blocks ==> AlikePhis(PhisAt(p, b), PhisAt(q, b))
  }

  lemma {:induction false} AlikePushed(w: Flow, phis: Phis, order: seq<BlockId>, a: nat)
    requires AllAlike(w.f, w.phis, phis) && forall b :: b in order ==> b in w.f.blocks
    ensures Pushed(w.(phis := phis), order, a) == Pushed(w, order, a)
    decreases |order|
  {
    hide AlikePhis;
    if order != [] {
      var b := order[|order| - 1];
      AlikeFor(PhisAt(w.phis, b), PhisAt(phis, b), w.phiVars, a);
      AlikePushed(w, phis, order[..|order| - 1], a);
    }
  }

  lemma {:induction false} AlikePushedBy(w: Flow, phis: Phis, order: seq<BlockId>, b: BlockId, a: nat)
    requires AllAlike(w.f, w.phis, phis) && forall c :: c in order ==> c in w.f.blocks
    ensures PushedBy(w.(phis := phis), order, b, a) == PushedBy(w, order, b, a)
    decreases |order|
  {
    hide AllAlike, Pushed;
    if order != [] {
      AlikePushed(w, phis, order, a);
      AlikePushedBy(w, phis, order[..|order| - 1], b, a);
    }
  }
}

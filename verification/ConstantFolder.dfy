/** Folding constants and single-entry phis with a work queue. */
module ConstantFolder {
  import opened Words
  import opened Graph
  import opened Dominance
  import opened Ir
  import opened Ssa
  import opened Rewrite
  import opened FunctionObject

  // The instructions that the pass can replace.
  predicate Foldable(i: Inst) {
    match i
    case BinaryInst(_, _, lhs, rhs) => lhs.Const? && rhs.Const?
    case CompareInst(_, _, lhs, rhs) => lhs.Const? && rhs.Const?
    case PhiInst(_, incoming) => |incoming| == 1
    case _ => false
  }

  // The value that takes the place of a foldable instruction.
  function Folded(i: Inst): (v: Value)
    requires Foldable(i)
  {
    match i
    case BinaryInst(_, op, lhs, rhs) => Const(EvalBinary(op, lhs.word, rhs.word))
    case CompareInst(_, pred, lhs, rhs) => Const(EvalCompare(pred, lhs.word, rhs.word))
    case PhiInst(_, incoming) => OnlyValue(incoming)
  }

  function OnlyValue(m: map<BlockId, Value>): (v: Value)
    requires |m| == 1
    ensures forall b :: b in m ==> m[b] == v && forall c :: c in m ==> c == b
  {
    SingleKey(m);
    var b :| b in m;
    m[b]
  }

  lemma SingleKey(m: map<BlockId, Value>)
    requires |m| == 1
    ensures exists b :: b in m
    ensures forall b, c :: b in m && c in m ==> b == c
  {
    assert m.Keys != {};
    var b :| b in m.Keys;
    assert |m.Keys - {b}| == 0;
  }

  type Ranks = map<nat, nat>

  function RankOf(rank: Ranks, x: nat): nat {
    if x in rank then rank[x] else 0
  }

  // In code that is never run no cycle consists of phis with one incoming value; in other code there is none.
  ghost predicate Ranked(f: Function, rank: Ranks)
    requires ValidFunction(f)
  {
    forall p {:trigger InstAt(f, p)} ::
      (IsPhi(f, p) && !Reachable(CfgOf(f), p.block) && |InstAt(f, p).incoming| == 1
        && OnlyValue(InstAt(f, p).incoming).Def?) ==>
      RankOf(rank, OnlyValue(InstAt(f, p).incoming).id) < RankOf(rank, InstAt(f, p).id)
  }

  /** What the pass demands: the phis have a value for every predecessor, and no single-entry phis feed each
      other in a circle. Blocks may be unreachable, and phis may have values for blocks that are no predecessors. */
  ghost predicate Foldee(f: Function, at: Places) {
    WellFormed(f, at) && PhisHaveAll(f) && exists rank: Ranks {:trigger Ranked(f, rank)} :: Ranked(f, rank)
  }

  function FoldPlan(s: Subst): Plan {
    Plan(s, s.Keys, {}, map[], map[], map[])
  }

  // A block with a single predecessor is dominated by it, and differs from it.
  lemma SinglePredDominates(g: Digraph, b: Vertex, d: Vertex)
    requires Reachable(g, d) && d != g.entry && forall c :: HasEdge(g, c, d) ==> c == b
    ensures Dom(g, b, d) && b != d
  {
    forall p | IsPath(g, p, d)
      ensures b in p && b != d
    {
      var i := FirstVisit(p, d);
      assert HasEdge(g, p[i - 1], p[i - 1 + 1]);
    }
    var p :| IsPath(g, p, d);
  }

  // A function that satisfies the preconditions of the pass, and the replacements made so far.
  datatype Progress = Progress(f: Function, at: Places, s: Subst, rank: Ranks)

  // A replacement in code that is never run leads to code that is, or down the ranks.
  ghost predicate LeadsDown(w: Progress, z: nat, v: Value)
    requires ValidFunction(w.f)
  {
    v.Def? && !IsLive(w.f, w.at, z) ==> IsLive(w.f, w.at, v.id) || RankOf(w.rank, v.id) < RankOf(w.rank, z)
  }

  ghost predicate Replaceable(w: Progress, s: Subst, z: nat)
    requires ValidFunction(w.f) && Located(w.f, w.at) && z in s
  {
    && z in w.at && (IsLive(w.f, w.at, z) ==> JustifiedUse(w.f, w.at, FoldPlan(s), z)) && LeadsDown(w, z, s[z])
  }

  // The replacements made so far are justified where the code can be run, and none leads to another
  // replaced result.
  ghost predicate Folding(w: Progress) {
    && WellFormed(w.f, w.at) && PhisHaveAll(w.f) && Ranked(w.f, w.rank) && w.s.Keys <= w.at.Keys && Resolved(w.s)
    && (forall x {:trigger x in w.s} :: x in w.s ==> Replaceable(w, w.s, x))
  }

  type Fold = w: Progress | Folding(w) ghost witness TrivialFold()

  ghost function TrivialFold(): (w: Progress)
    ensures Folding(w)
  {
    ReturnZeroFacts();
    Progress(ReturnZero(), map[], map[], map[])
  }

  lemma FoldingIsSound(w: Fold)
    ensures Sound(w.f, w.at, FoldPlan(w.s))
  {
    hide Located, OperandsAvail, IncomingAvail, JustifiedUse, LeadsDown, Ranked;
    forall x {:trigger x in w.s} | x in w.s && Reachable(CfgOf(w.f), w.at[x].block)
      ensures JustifiedUse(w.f, w.at, FoldPlan(w.s), x)
    {
      assert Replaceable(w, w.s, x);
    }
  }

  lemma FoldFacts(w: Fold)
    ensures WellFormed(w.f, w.at) && PhisHaveAll(w.f) && Ranked(w.f, w.rank) && ValidFunction(w.f) && Located(w.f, w.at)
    ensures w.s.Keys <= w.at.Keys && Resolved(w.s)
  {
    hide Located, OperandsAvail, IncomingAvail, Replaceable, Resolved, PhisHaveAll, Ranked;
  }

  // The block of a phi with one incoming value has that predecessor only.
  lemma OnlyPred(f: Function, at: Places, p: Pos, b: BlockId)
    requires WellFormed(f, at) && PhisHaveAll(f) && Reachable(CfgOf(f), p.block)
    requires IsPhi(f, p) && |InstAt(f, p).incoming| == 1 && b in InstAt(f, p).incoming
    ensures forall c :: HasEdge(CfgOf(f), c, p.block) ==> c == b
    ensures Dom(CfgOf(f), b, p.block) && b != p.block && OnlyValue(InstAt(f, p).incoming) == InstAt(f, p).incoming[b]
  {
    SingleKey(InstAt(f, p).incoming);
    assert p.block != Entry(f);
    forall c | HasEdge(CfgOf(f), c, p.block)
      ensures c == b
    {
      assert c in InstAt(f, p).incoming;
    }
    SinglePredDominates(CfgOf(f), b, p.block);
  }

  // Replacing an available value keeps it available.
  lemma ReplacedSource(w: Fold, p: Pos, v: Value)
    requires Within(w.f, p) && Reachable(CfgOf(w.f), p.block) && Source(w.f, w.at, v, p)
    ensures Source(w.f, w.at, Apply(w.s, v), p)
  {
    hide Justified, Replaceable, OperandsAvail, IncomingAvail, Located, PhisHaveAll, Ranked;
    var f, at, s := w.f, w.at, w.s;
    FoldFacts(w);
    if v.Def? && v.id in s {
      SourceIsLive(f, at, v.id, p);
      UseIsJustified(w, v.id);
      if s[v.id].Def? {
        SourceTrans(f, at, s[v.id].id, v.id, p);
      }
    }
  }

  lemma UseIsJustified(w: Fold, z: nat)
    requires z in w.s && IsLive(w.f, w.at, z)
    ensures z in w.at && Within(w.f, w.at[z]) && Justified(w.f, FoldPlan(w.s), w.at[z])
    ensures Source(w.f, w.at, w.s[z], w.at[z])
  {
    hide Source, Justified, OperandsAvail, IncomingAvail, LeadsDown, PhisHaveAll, Ranked, Resolved;
    assert Replaceable(w, w.s, z);
    assert DefinesAt(w.f, z, w.at[z]);
    NoLoadFolds(w.f, w.s, w.at[z]);
  }

  lemma NoLoadFolds(f: Function, s: Subst, p: Pos)
    requires ValidFunction(f) && Within(f, p) && Justified(f, FoldPlan(s), p)
    ensures !InstAt(f, p).LoadInst?
  {
  }

  lemma UseLeadsDown(w: Fold, z: nat)
    requires z in w.s
    ensures LeadsDown(w, z, w.s[z])
  {
    hide JustifiedUse, LeadsDown, OperandsAvail, IncomingAvail, Located, PhisHaveAll, Ranked, Resolved;
    assert Replaceable(w, w.s, z);
  }

  // The single incoming value of a phi is available before its block.
  lemma PhiSource(w: Fold, p: Pos)
    requires IsPhi(w.f, p) && |InstAt(w.f, p).incoming| == 1 && Reachable(CfgOf(w.f), p.block)
    ensures Source(w.f, w.at, Apply(w.s, OnlyValue(InstAt(w.f, p).incoming)), p)
  {
    hide Located, OperandsAvail, IncomingAvail, Replaceable, Resolved, PhisHaveAll, Ranked, Avail, SourceAvail;
    var f, at := w.f, w.at;
    FoldFacts(w);
    var v := OnlyValue(InstAt(f, p).incoming);
    SingleKey(InstAt(f, p).incoming);
    var b :| b in InstAt(f, p).incoming;
    OnlyPred(f, at, p, b);
    if v.Def? {
      IncomingOf(f, at, p, b);
      AvailBeforeSuccessor(f, at, v.id, b, p);
    }
    ReplacedSource(w, p, v);
  }

  lemma AvailBeforeSuccessor(f: Function, at: Places, y: nat, b: BlockId, p: Pos)
    requires WellFormed(f, at) && b in f.blocks && Within(f, p) && Reachable(CfgOf(f), p.block)
    requires Avail(f, at, y, b, |f.blocks[b]|) && Dom(CfgOf(f), b, p.block) && b != p.block
    ensures SourceAvail(f, at, y, p)
  {
    hide Located, OperandsAvail, IncomingAvail;
    if at[y].block != b {
      DomTrans(CfgOf(f), at[y].block, b, p.block);
      if at[y].block == p.block {
        DomAntisym(CfgOf(f), b, p.block);
      }
    }
  }

  // In code that is never run the value leads down.
  lemma PhiLeadsDown(w: Fold, p: Pos)
    requires IsPhi(w.f, p) && |InstAt(w.f, p).incoming| == 1 && !Reachable(CfgOf(w.f), p.block)
    ensures var v := Apply(w.s, OnlyValue(InstAt(w.f, p).incoming));
      v.Def? ==> IsLive(w.f, w.at, v.id) || RankOf(w.rank, v.id) < RankOf(w.rank, InstAt(w.f, p).id)
  {
    hide Located, OperandsAvail, IncomingAvail, Replaceable, Resolved, PhisHaveAll, IsLive, RankOf;
    FoldFacts(w);
    var u := OnlyValue(InstAt(w.f, p).incoming);
    if u.Def? {
      assert RankOf(w.rank, u.id) < RankOf(w.rank, InstAt(w.f, p).id);
      if u.id in w.s {
        UseLeadsDown(w, u.id);
        LiveLeadsToLive(w, u.id);
      }
    }
  }

  lemma LiveLeadsToLive(w: Fold, z: nat)
    requires z in w.s
    ensures w.s[z].Def? && IsLive(w.f, w.at, z) ==> IsLive(w.f, w.at, w.s[z].id)
  {
    hide Located, OperandsAvail, IncomingAvail, Replaceable, Resolved, PhisHaveAll, Ranked, Justified, SourceAvail;
    FoldFacts(w);
    if w.s[z].Def? && IsLive(w.f, w.at, z) {
      UseIsJustified(w, z);
      SourceIsLive(w.f, w.at, w.s[z].id, w.at[z]);
    }
  }

  lemma RenamedOnlyValue(s: Subst, incoming: map<BlockId, Value>)
    requires |incoming| == 1
    ensures |RenameIncoming(s, incoming)| == 1
    ensures OnlyValue(RenameIncoming(s, incoming)) == Apply(s, OnlyValue(incoming))
  {
    assert RenameIncoming(s, incoming).Keys == incoming.Keys;
    assert |RenameIncoming(s, incoming).Keys| == |incoming.Keys|;
    SingleKey(incoming);
    var b :| b in incoming;
    assert RenameIncoming(s, incoming)[b] == Apply(s, incoming[b]);
  }

  // The instruction at p, with identity x, can be folded to v.
  predicate CanFold(w: Progress, p: Pos, x: nat, v: Value) {
    && Within(w.f, p) && Foldable(RenameInst(w.s, InstAt(w.f, p)))
    && x == InstAt(w.f, p).id && v == Folded(RenameInst(w.s, InstAt(w.f, p)))
  }

  // The value folded in is resolved and differs from what it replaces.
  lemma FoldedSource(w: Fold, p: Pos, x: nat, v: Value)
    requires CanFold(w, p, x, v)
    ensures x in w.at && w.at[x] == p && DefinesValue(InstAt(w.f, p))
    ensures v != Def(x) && (v.Def? ==> v.id !in w.s) && LeadsDown(w, x, v)
    ensures Reachable(CfgOf(w.f), p.block) ==> Source(w.f, w.at, v, p)
  {
    hide OperandsAvail, IncomingAvail, Replaceable, PhisHaveAll, Ranked;
    FoldFacts(w);
    var i := InstAt(w.f, p);
    PlaceOf(w.f, w.at, p);
    if i.PhiInst? {
      FoldedPhi(w, p, v);
    }
  }

  lemma PlaceOf(f: Function, at: Places, p: Pos)
    requires Located(f, at) && Within(f, p) && DefinesValue(InstAt(f, p))
    ensures InstAt(f, p).id in at && at[InstAt(f, p).id] == p
  {
  }

  lemma FoldedPhi(w: Fold, p: Pos, v: Value)
    requires IsPhi(w.f, p) && CanFold(w, p, InstAt(w.f, p).id, v)
    ensures v != Def(InstAt(w.f, p).id) && (v.Def? ==> v.id !in w.s) && LeadsDown(w, InstAt(w.f, p).id, v)
    ensures Reachable(CfgOf(w.f), p.block) ==> Source(w.f, w.at, v, p)
  {
    hide OperandsAvail, IncomingAvail, Replaceable, PhisHaveAll, Ranked;
    FoldFacts(w);
    var i := InstAt(w.f, p);
    PlaceOf(w.f, w.at, p);
    assert RenameInst(w.s, i).incoming == RenameIncoming(w.s, i.incoming);
    assert RenameIncoming(w.s, i.incoming).Keys == i.incoming.Keys;
    assert |RenameIncoming(w.s, i.incoming).Keys| == |i.incoming.Keys|;
    RenamedOnlyValue(w.s, i.incoming);
    if Reachable(CfgOf(w.f), p.block) {
      PhiSource(w, p);
    } else {
      PhiLeadsDown(w, p);
    }
  }

  lemma ExtendResolved(s: Subst, x: nat, v: Value)
    requires Resolved(s) && x !in s && v != Def(x) && (v.Def? ==> v.id !in s)
    ensures Resolved(Extend(s, x, v))
  {
  }

  lemma StillJustifiedAt(w: Fold, x: nat, v: Value, z: nat)
    requires x in w.at && x !in w.s && z in w.s && z in w.at && Within(w.f, w.at[z])
    requires Justified(w.f, FoldPlan(w.s), w.at[z])
    ensures Justified(w.f, FoldPlan(Extend(w.s, x, v)), w.at[z])
  {
    hide OperandsAvail, IncomingAvail, Source, Replaceable;
    if InstAt(w.f, w.at[z]).PhiInst? {
      PhiStillJustified(w.f, w.s, x, v, w.at[z]);
    } else {
      FlatStillJustified(w.f, w.s, x, v, w.at[z]);
    }
  }

  lemma StillSource(f: Function, at: Places, x: nat, v: Value, u: Value, p: Pos)
    requires WellFormed(f, at) && Within(f, p) && x in at && Reachable(CfgOf(f), p.block)
    requires IsLive(f, at, x) ==> Source(f, at, v, at[x])
    requires Source(f, at, u, p)
    ensures Source(f, at, Apply(map[x := v], u), p)
  {
    hide Located, OperandsAvail, IncomingAvail, Reachable;
    if u == Def(x) {
      SourceIsLive(f, at, x, p);
      if v.Def? {
        SourceTrans(f, at, v.id, x, p);
      }
    }
  }

  lemma ExtendedUse(f: Function, at: Places, s: Subst, z: nat)
    requires ValidFunction(f) && Located(f, at) && z in at && z in s
    requires Justified(f, FoldPlan(s), at[z]) && Source(f, at, s[z], at[z])
    ensures JustifiedUse(f, at, FoldPlan(s), z)
  {
    hide Justified, Source, Located, ValidFunction;
  }

  // Earlier replacements stay justified, now that x leads to v.
  lemma StillJustified(w: Fold, x: nat, v: Value, z: nat)
    requires x in w.at && x !in w.s && z in w.s && IsLive(w.f, w.at, z)
    requires IsLive(w.f, w.at, x) ==> Source(w.f, w.at, v, w.at[x])
    ensures JustifiedUse(w.f, w.at, FoldPlan(Extend(w.s, x, v)), z)
  {
    hide Justified, Source, Folding;
    FoldFacts(w);
    UseIsJustified(w, z);
    StillJustifiedAt(w, x, v, z);
    StillSource(w.f, w.at, x, v, w.s[z], w.at[z]);
    ExtendedUse(w.f, w.at, Extend(w.s, x, v), z);
  }

  lemma StillLeadsDown(w: Fold, x: nat, v: Value, z: nat)
    requires x in w.at && z in w.s && LeadsDown(w, x, v)
    requires IsLive(w.f, w.at, x) && v.Def? ==> IsLive(w.f, w.at, v.id)
    ensures LeadsDown(w, z, Apply(map[x := v], w.s[z]))
  {
    hide Folding, IsLive, RankOf;
    FoldFacts(w);
    UseLeadsDown(w, z);
  }

  lemma StillReplaceable(w: Fold, x: nat, v: Value, z: nat)
    requires x in w.at && x !in w.s && z in w.s && LeadsDown(w, x, v)
    requires IsLive(w.f, w.at, x) ==> Source(w.f, w.at, v, w.at[x])
    ensures Replaceable(w, Extend(w.s, x, v), z)
  {
    hide Folding, Source, JustifiedUse, LeadsDown, Located, WellFormed;
    FoldFacts(w);
    ReplacementIsLive(w.f, w.at, x, v);
    StillLeadsDown(w, x, v, z);
    if IsLive(w.f, w.at, z) {
      StillJustified(w, x, v, z);
    }
  }

  lemma ReplacementIsLive(f: Function, at: Places, x: nat, v: Value)
    requires ValidFunction(f) && x in at && (IsLive(f, at, x) ==> Source(f, at, v, at[x]))
    ensures IsLive(f, at, x) && v.Def? ==> IsLive(f, at, v.id)
  {
    hide Reachable, ValidFunction;
    if IsLive(f, at, x) && v.Def? {
      SourceIsLive(f, at, v.id, at[x]);
    }
  }

  lemma FlatStillJustified(f: Function, s: Subst, x: nat, v: Value, p: Pos)
    requires ValidFunction(f) && Within(f, p) && x !in s && Justified(f, FoldPlan(s), p) && !InstAt(f, p).PhiInst?
    ensures Justified(f, FoldPlan(Extend(s, x, v)), p)
  {
    var i := InstAt(f, p);
    if i.BinaryInst? || i.CompareInst? {
      ApplyExtend(s, x, v, i.lhs);
      ApplyExtend(s, x, v, i.rhs);
    }
  }

  lemma PhiStillJustified(f: Function, s: Subst, x: nat, v: Value, p: Pos)
    requires ValidFunction(f) && IsPhi(f, p) && x !in s && Justified(f, FoldPlan(s), p)
    ensures Justified(f, FoldPlan(Extend(s, x, v)), p)
  {
    var i := InstAt(f, p);
    var b :| b in i.incoming && s[i.id] == Apply(s, i.incoming[b])
      && forall c :: HasEdge(CfgOf(f), c, p.block) ==> c == b;
    ApplyExtend(s, x, v, i.incoming[b]);
    assert Extend(s, x, v)[i.id] == Apply(Extend(s, x, v), i.incoming[b]);
  }

  lemma NewlyJustified(w: Fold, p: Pos, x: nat, v: Value)
    requires CanFold(w, p, x, v) && x !in w.s && Reachable(CfgOf(w.f), p.block)
    ensures x in w.at && JustifiedUse(w.f, w.at, FoldPlan(Extend(w.s, x, v)), x)
  {
    hide OperandsAvail, IncomingAvail, Replaceable, PhisHaveAll, Ranked, Resolved, SourceAvail;
    FoldFacts(w);
    var i := InstAt(w.f, p);
    FoldedSource(w, p, x, v);
    if i.PhiInst? {
      PhiNewlyJustified(w.f, w.at, w.s, p, x, v);
    } else {
      ApplyExtend(w.s, x, v, i.lhs);
      ApplyExtend(w.s, x, v, i.rhs);
    }
  }

  lemma PhiNewlyJustified(f: Function, at: Places, s: Subst, p: Pos, x: nat, v: Value)
    requires WellFormed(f, at) && PhisHaveAll(f) && Reachable(CfgOf(f), p.block)
    requires IsPhi(f, p) && Foldable(RenameInst(s, InstAt(f, p)))
    requires x == InstAt(f, p).id && x !in s && v == Folded(RenameInst(s, InstAt(f, p)))
    requires v.Def? ==> v.id != x
    ensures Justified(f, FoldPlan(Extend(s, x, v)), p)
  {
    hide OperandsAvail, IncomingAvail, Located, PhisHaveAll;
    var incoming := InstAt(f, p).incoming;
    assert RenameIncoming(s, incoming).Keys == incoming.Keys;
    assert |RenameIncoming(s, incoming).Keys| == |incoming.Keys|;
    RenamedOnlyValue(s, incoming);
    SingleKey(incoming);
    var b :| b in incoming;
    OnlyPred(f, at, p, b);
    ApplyExtend(s, x, v, incoming[b]);
    assert Extend(s, x, v)[x] == Apply(Extend(s, x, v), incoming[b]);
  }

  lemma NewlyReplaceable(w: Fold, p: Pos, x: nat, v: Value)
    requires CanFold(w, p, x, v) && x !in w.s
    ensures x in w.at && Replaceable(w, Extend(w.s, x, v), x)
  {
    hide Folding, CanFold, Source, JustifiedUse, LeadsDown, Located, WellFormed;
    FoldFacts(w);
    FoldedSource(w, p, x, v);
    if IsLive(w.f, w.at, x) {
      NewlyJustified(w, p, x, v);
    }
  }

  // Folding one more instruction keeps everything justified.
  lemma FoldStep(w: Fold, p: Pos, x: nat, v: Value) returns (w': Fold)
    requires CanFold(w, p, x, v) && x !in w.s
    ensures w' == w.(s := Extend(w.s, x, v))
  {
    hide Source, Located, OperandsAvail, IncomingAvail, Resolved, JustifiedUse, LeadsDown, PhisHaveAll, Ranked, CanFold;
    FoldFacts(w);
    FoldedSource(w, p, x, v);
    NewlyReplaceable(w, p, x, v);
    ExtendResolved(w.s, x, v);
    var next := w.(s := Extend(w.s, x, v));
    forall z {:trigger z in next.s} | z in next.s
      ensures Replaceable(next, next.s, z)
    {
      if z != x {
        StillReplaceable(w, x, v, z);
      }
      SameReplaceable(w, next, z);
    }
    w' := next;
  }

  lemma SameReplaceable(w: Progress, next: Progress, z: nat)
    requires ValidFunction(w.f) && Located(w.f, w.at) && z in next.s && next == w.(s := next.s)
    ensures Replaceable(next, next.s, z) <==> Replaceable(w, next.s, z)
  {
    hide JustifiedUse, Located, ValidFunction, IsLive;
  }

  // ---- The work queue

  // Every instruction that can be folded now and has not been is waiting in the queue.
  ghost predicate Queued(f: Function, s: Subst, queue: seq<Pos>) {
    && (forall p {:trigger p in queue} :: p in queue ==> Within(f, p))
    && (forall p {:trigger InstAt(f, p)} ::
          Within(f, p) && Foldable(RenameInst(s, InstAt(f, p))) ==> InstAt(f, p).id in s || p in queue)
  }

  // The results that some instruction uses.
  ghost function UsedIds(f: Function, at: Places): set<nat> {
    set x | x in at && IsUsed(f, x)
  }

  ghost predicate IsUsed(f: Function, x: nat) {
    exists p :: IsUser(f, Def(x), p)
  }

  lemma RenamedAt(s: Subst, f: Function, p: Pos)
    ensures Within(RenameFunction(s, f), p) <==> Within(f, p)
    ensures Within(f, p) ==> InstAt(RenameFunction(s, f), p) == RenameInst(s, InstAt(f, p))
  {
  }

  // What the renamed instruction uses.
  lemma UsesRenamed(i: Inst, x: nat, v: Value, u: Value)
    requires v != Def(x)
    ensures !UsesValue(RenameInst(map[x := v], i), Def(x))
    ensures UsesValue(RenameInst(map[x := v], i), u) ==> UsesValue(i, u) || (u == v && UsesValue(i, Def(x)))
    ensures !UsesValue(i, Def(x)) ==> RenameInst(map[x := v], i) == i
  {
    if i.PhiInst? {
      var r := RenameInst(map[x := v], i).incoming;
      forall b | b in r
        ensures r[b] == Apply(map[x := v], i.incoming[b]) && i.incoming[b] in i.incoming.Values
      {
      }
      if !UsesValue(i, Def(x)) {
        assert r == i.incoming;
      }
    }
  }

  lemma UnusedRename(f: Function, x: nat, v: Value)
    requires v != Def(x) && !IsUsed(f, x)
    ensures RenameFunction(map[x := v], f) == f
  {
    forall b | b in f.blocks
      ensures RenameBlock(map[x := v], f.blocks[b]) == f.blocks[b]
    {
      forall k | 0 <= k < |f.blocks[b]|
        ensures RenameInst(map[x := v], f.blocks[b][k]) == f.blocks[b][k]
      {
        assert !IsUser(f, Def(x), Pos(b, k));
        UsesRenamed(f.blocks[b][k], x, v, v);
      }
    }
  }

  // Replacing a used result by a value that was used already leaves fewer used results.
  lemma FewerUsed(f: Function, at: Places, x: nat, v: Value)
    requires x in at && v != Def(x) && IsUsed(f, x) && (v.Def? ==> IsUsed(f, v.id))
    ensures UsedIds(RenameFunction(map[x := v], f), at) < UsedIds(f, at)
  {
    var g := RenameFunction(map[x := v], f);
    forall y | y in UsedIds(g, at)
      ensures y in UsedIds(f, at) && y != x
    {
      var p :| IsUser(g, Def(y), p);
      RenamedAt(map[x := v], f, p);
      UsesRenamed(InstAt(f, p), x, v, Def(y));
      assert IsUser(f, Def(y), p) || IsUser(f, Def(x), p);
    }
    assert x in UsedIds(f, at);
  }

  // Only users of x can become foldable when x is replaced.
  lemma NewlyFoldableIsUser(f: Function, s: Subst, x: nat, v: Value, p: Pos)
    requires x !in s && v != Def(x) && Within(f, p)
    requires Foldable(RenameInst(Extend(s, x, v), InstAt(f, p)))
    ensures Foldable(RenameInst(s, InstAt(f, p))) || IsUser(RenameFunction(s, f), Def(x), p)
  {
    RenameInstExtend(s, x, v, InstAt(f, p));
    UsesRenamed(RenameInst(s, InstAt(f, p)), x, v, v);
    RenamedAt(s, f, p);
  }

  lemma UsersComplete(f: Function, s: Subst, g: Function, x: nat, users: seq<Pos>)
    requires ValidFunction(f) && g == RenameFunction(s, f) && users == Users(g, g.order, Def(x))
    ensures forall q {:trigger q in users} {:trigger IsUser(g, Def(x), q)} :: q in users <==> IsUser(g, Def(x), q)
  {
  }

  lemma QueuedAfterFold(f: Function, s: Subst, g: Function, x: nat, v: Value, p: Pos, queue: seq<Pos>, users: seq<Pos>)
    requires ValidFunction(f) && x !in s && v != Def(x) && Within(f, p)
    requires DefinesValue(InstAt(f, p)) && InstAt(f, p).id == x && Queued(f, s, queue + [p])
    requires g == RenameFunction(s, f) && users == Users(g, g.order, Def(x))
    ensures Queued(f, Extend(s, x, v), queue + users)
  {
    UsersComplete(f, s, g, x, users);
    forall q | q in queue + users
      ensures Within(f, q)
    {
      RenamedAt(s, f, q);
      assert q in queue ==> q in queue + [p];
    }
    forall q | Within(f, q) && Foldable(RenameInst(Extend(s, x, v), InstAt(f, q)))
      && InstAt(f, q).id !in Extend(s, x, v)
      ensures q in queue + users
    {
      NewlyFoldableIsUser(f, s, x, v, q);
      if q !in users {
        assert q in queue + [p];
      }
    }
  }

  // A result that has been replaced is used nowhere.
  lemma ReplacedIsUnused(f: Function, s: Subst, x: nat)
    requires Resolved(s) && x in s
    ensures !IsUsed(RenameFunction(s, f), x)
  {
    forall p
      ensures !IsUser(RenameFunction(s, f), Def(x), p)
    {
      RenamedAt(s, f, p);
      if Within(f, p) {
        NotRenamedTo(s, InstAt(f, p), x);
      }
    }
  }

  lemma NotRenamedTo(s: Subst, i: Inst, x: nat)
    requires x in s && Resolved(s)
    ensures !UsesValue(RenameInst(s, i), Def(x))
  {
    if i.PhiInst? {
      var r := RenameInst(s, i).incoming;
      forall b | b in r
        ensures r[b] != Def(x)
      {
        assert r[b] == Apply(s, i.incoming[b]);
      }
    }
  }

  // What a phi is folded to is one of its incoming values.
  lemma FoldedIsUsed(f: Function, p: Pos)
    requires Within(f, p) && Foldable(InstAt(f, p)) && Folded(InstAt(f, p)).Def?
    ensures IsUsed(f, Folded(InstAt(f, p)).id)
  {
    var incoming := InstAt(f, p).incoming;
    SingleKey(incoming);
    var b :| b in incoming;
    assert incoming[b] in incoming.Values;
    assert IsUser(f, Folded(InstAt(f, p)), p);
  }

  lemma UnusedHasNoUsers(g: Function, x: nat, users: seq<Pos>)
    requires (forall b :: b in g.order ==> b in g.blocks) && users == Users(g, g.order, Def(x)) && !IsUsed(g, x)
    ensures users == []
  {
    forall q
      ensures q !in users
    {
      assert !IsUser(g, Def(x), q);
    }
    EmptyOrNot(users);
  }

  lemma EmptyOrNot(users: seq<Pos>)
    ensures users == [] || exists q :: q in users
  {
    if users != [] {
      assert users[0] in users;
    }
  }

  // What is waiting after folding the instruction at p: again, or for the first time.
  lemma QueuedAfter(w: Fold, g: Function, g': Function, p: Pos, x: nat, v: Value, queue: seq<Pos>, users: seq<Pos>)
    requires CanFold(w, p, x, v) && g == RenameFunction(w.s, w.f) && g' == RenameFunction(map[x := v], g)
    requires Queued(w.f, w.s, queue + [p]) && users == Users(g, w.f.order, Def(x))
    ensures x in w.s ==> Queued(w.f, w.s, queue + users) && RenameFunction(w.s, w.f) == g'
    ensures x !in w.s ==> Queued(w.f, Extend(w.s, x, v), queue + users) && RenameFunction(Extend(w.s, x, v), w.f) == g'
  {
    hide Foldable, Source, JustifiedUse;
    FoldedSource(w, p, x, v);
    if x in w.s {
      RefoldChangesNothing(w.f, w.s, g, x, v, users);
      QueuedWithout(w.f, w.s, queue, p);
      assert queue + users == queue;
    } else {
      QueuedAfterFold(w.f, w.s, g, x, v, p, queue, users);
      RenameExtend(w.s, x, v, w.f);
    }
  }

  // One round of the loop: fewer results are used, or nothing changes and nothing is pushed.
  lemma LoopStep(w: Fold, g: Function, g': Function, p: Pos, x: nat, v: Value, queue: seq<Pos>, users: seq<Pos>)
      returns (w': Fold)
    requires CanFold(w, p, x, v) && g == RenameFunction(w.s, w.f) && g' == RenameFunction(map[x := v], g)
    requires Queued(w.f, w.s, queue + [p])
    requires users == Users(g, w.f.order, Def(x)) && (v.Def? ==> IsUsed(g, v.id))
    ensures w' == w.(s := w'.s) && w'.s.Keys == w.s.Keys + {x}
    ensures Queued(w.f, w'.s, queue + users) && RenameFunction(w'.s, w.f) == g'
    ensures UsedIds(g', w.at) < UsedIds(g, w.at) || (g' == g && queue + users == queue)
  {
    hide *;
    QueuedAfter(w, g, g', p, x, v, queue, users);
    StepShrinks(w, g, g', p, x, v, users);
    if x in w.s {
      assert w.s.Keys + {x} == w.s.Keys;
      w' := w;
    } else {
      w' := FoldStep(w, p, x, v);
    }
  }

  lemma StepShrinks(w: Fold, g: Function, g': Function, p: Pos, x: nat, v: Value, users: seq<Pos>)
    requires CanFold(w, p, x, v) && g == RenameFunction(w.s, w.f) && g' == RenameFunction(map[x := v], g)
    requires users == Users(g, w.f.order, Def(x)) && (v.Def? ==> IsUsed(g, v.id))
    ensures UsedIds(g', w.at) < UsedIds(g, w.at) || (g' == g && users == [])
  {
    FoldedSource(w, p, x, v);
    FoldShrinks(w.f, w.at, g, x, v, users);
  }

  lemma FoldShrinks(f: Function, at: Places, g: Function, x: nat, v: Value, users: seq<Pos>)
    requires x in at && v != Def(x) && (v.Def? ==> IsUsed(g, v.id))
    requires ValidFunction(f) && g.order == f.order && g.blocks.Keys == f.blocks.Keys
    requires users == Users(g, f.order, Def(x))
    ensures UsedIds(RenameFunction(map[x := v], g), at) < UsedIds(g, at)
         || (RenameFunction(map[x := v], g) == g && users == [])
  {
    if IsUsed(g, x) {
      FewerUsed(g, at, x, v);
    } else {
      UnusedHasNoUsers(g, x, users);
      UnusedRename(g, x, v);
    }
  }

  lemma RefoldChangesNothing(f: Function, s: Subst, g: Function, x: nat, v: Value, users: seq<Pos>)
    requires ValidFunction(f) && Resolved(s) && g == RenameFunction(s, f) && x in s && v != Def(x)
    requires users == Users(g, g.order, Def(x))
    ensures RenameFunction(map[x := v], g) == g && users == []
  {
    ReplacedIsUnused(f, s, x);
    UnusedHasNoUsers(g, x, users);
    UnusedRename(g, x, v);
  }

  lemma QueuedWithout(f: Function, s: Subst, queue: seq<Pos>, p: Pos)
    requires Queued(f, s, queue + [p]) && Within(f, p)
    requires Foldable(RenameInst(s, InstAt(f, p))) ==> InstAt(f, p).id in s
    ensures Queued(f, s, queue)
  {
    forall q | q in queue
      ensures Within(f, q)
    {
      assert q in queue + [p];
    }
    forall q | Within(f, q) && Foldable(RenameInst(s, InstAt(f, q)))
      ensures InstAt(f, q).id in s || q in queue
    {
      assert InstAt(f, q).id in s || q in queue + [p];
    }
  }

  lemma RenameKeepsId(s: Subst, i: Inst)
    requires Foldable(RenameInst(s, i))
    ensures DefinesValue(i) && RenameInst(s, i).id == i.id
  {
  }

  lemma CanFoldNow(w: Progress, g: Function, p: Pos, i: Inst, v: Value)
    requires Within(w.f, p) && g == RenameFunction(w.s, w.f) && i == InstAt(g, p) && Foldable(i) && v == Folded(i)
    ensures CanFold(w, p, i.id, v)
  {
    RenamedAt(w.s, w.f, p);
    RenameKeepsId(w.s, InstAt(w.f, p));
  }

  lemma RenamedShape(w: Fold, g: Function, p: Pos)
    requires g == RenameFunction(w.s, w.f)
    ensures g.order == w.f.order && (forall b :: b in g.order ==> b in g.blocks)
    ensures Within(g, p) <==> Within(w.f, p)
  {
  }

  lemma FoldableDefines(i: Inst)
    requires Foldable(i)
    ensures DefinesValue(i) && (i.BinaryInst? || i.CompareInst? || i.PhiInst?)
  {
  }

  // Pushes the users of an instruction, and puts its folded value in its place.
  method Replace(target: FunctionObject, p: Pos, queue: seq<Pos>, ghost w: Fold)
      returns (queue': seq<Pos>, ghost w': Fold)
    requires target.fn == RenameFunction(w.s, w.f) && Queued(w.f, w.s, queue + [p])
    requires Within(w.f, p) && Foldable(InstAt(target.fn, p))
    modifies target
    ensures target.fn == RenameFunction(w'.s, w.f) && Queued(w.f, w'.s, queue')
    ensures w' == w.(s := w'.s) && w'.s.Keys == w.s.Keys + {old(InstAt(target.fn, p).id)}
    ensures UsedIds(target.fn, w.at) < old(UsedIds(target.fn, w.at)) || (target.fn == old(target.fn) && queue' == queue)
  {
    hide *;
    var g := target.fn;
    RenamedShape(w, g, p);
    var i := InstAt(g, p);
    FoldableDefines(i);
    var v := Folded(i);
    CanFoldNow(w, g, p, i, v);
    if v.Def? {
      FoldedIsUsed(g, p);
    }
    var users := Users(g, g.order, Def(i.id));
    queue' := queue + users;
    target.ReplaceAllUses(i.id, v);
    w' := LoopStep(w, g, target.fn, p, i.id, v, queue, users);
  }

  // ---- The whole pass

  lemma Begin(f: Function, at: Places, queue: seq<Pos>) returns (w: Fold)
    requires Foldee(f, at) && queue == Positions(f, f.order)
    ensures w == Progress(f, at, map[], w.rank) && RenameFunction(w.s, f) == f && Queued(f, w.s, queue) && w.s == map[]
  {
    hide Located, OperandsAvail, IncomingAvail, PhisHaveAll, Ranked;
    RenameNothing(f);
    var rank: Ranks :| Ranked(f, rank);
    w := Progress(f, at, map[], rank);
  }

  // One round of the work loop.
  method Round(target: FunctionObject, p: Pos, rest: seq<Pos>, removed: set<nat>, ghost w: Fold)
      returns (queue: seq<Pos>, removed': set<nat>, ghost w': Fold)
    requires target.fn == RenameFunction(w.s, w.f) && Queued(w.f, w.s, rest + [p]) && removed == w.s.Keys
    modifies target
    ensures target.fn == RenameFunction(w'.s, w.f) && Queued(w.f, w'.s, queue)
    ensures w' == w.(s := w'.s) && removed' == w'.s.Keys
    ensures UsedIds(target.fn, w.at) < old(UsedIds(target.fn, w.at)) || (target.fn == old(target.fn) && queue == rest)
  {
    hide *;
    LastIsWithin(w.f, w.s, rest, p);
    RenamedShape(w, target.fn, p);
    var i := InstAt(target.fn, p);
    if Foldable(i) {
      FoldableDefines(i);
      queue, w' := Replace(target, p, rest, w);
      removed' := removed + {i.id};
    } else {
      NotFoldable(w, target.fn, p, rest);
      queue, removed', w' := rest, removed, w;
    }
  }

  lemma LastIsWithin(f: Function, s: Subst, rest: seq<Pos>, p: Pos)
    requires Queued(f, s, rest + [p])
    ensures Within(f, p)
  {
    assert p in rest + [p];
  }

  lemma NotFoldable(w: Fold, g: Function, p: Pos, rest: seq<Pos>)
    requires g == RenameFunction(w.s, w.f) && Within(w.f, p) && !Foldable(InstAt(g, p))
    requires Queued(w.f, w.s, rest + [p])
    ensures Queued(w.f, w.s, rest)
  {
    RenamedAt(w.s, w.f, p);
    QueuedWithout(w.f, w.s, rest, p);
  }

  lemma DropFromTwice(a: set<nat>, x: nat, f: Function)
    ensures DropFrom({x}, DropFrom(a, f)) == DropFrom(a + {x}, f)
  {
    forall b | b in f.blocks
      ensures DropInsts({x}, DropInsts(a, f.blocks[b])) == DropInsts(a + {x}, f.blocks[b])
    {
      DropTwice(a, {x}, f.blocks[b]);
    }
  }

  lemma DropFromNothing(f: Function)
    ensures DropFrom({}, f) == f
  {
    forall b | b in f.blocks
      ensures DropInsts({}, f.blocks[b]) == f.blocks[b]
    {
      DropNothing(f.blocks[b]);
    }
  }

  // Erases the folded instructions.
  method RemoveAll(target: FunctionObject, removed: set<nat>)
    modifies target
    ensures target.fn == DropFrom(removed, old(target.fn))
  {
    var todo := removed;
    DropFromNothing(target.fn);
    assert removed - todo == {};
    while todo != {}
      invariant todo <= removed
      invariant target.fn == DropFrom(removed - todo, old(target.fn))
    {
      var x :| x in todo;
      DropFromTwice(removed - todo, x, old(target.fn));
      assert removed - (todo - {x}) == (removed - todo) + {x};
      target.RemoveInst(x);
      todo := todo - {x};
    }
    assert removed - todo == removed;
  }

  lemma RenameKeepsKind(s: Subst, i: Inst)
    ensures DefinesValue(RenameInst(s, i)) == DefinesValue(i) && (DefinesValue(i) ==> RenameInst(s, i).id == i.id)
    ensures RewriteInst(FoldPlan(s), i) == if DefinesValue(i) && i.id in s then [] else [RenameInst(s, i)]
  {
  }

  lemma {:induction false} DroppedBlock(s: Subst, b: Block)
    ensures DropInsts(s.Keys, RenameBlock(s, b)) == RewriteBlock(FoldPlan(s), b)
  {
    hide RenameInst, DefinesValue, RewriteInst, FoldPlan;
    if b != [] {
      DroppedBlock(s, b[1..]);
      RenameKeepsKind(s, b[0]);
      assert RenameBlock(s, b)[1..] == RenameBlock(s, b[1..]);
    }
  }

  lemma DroppedFunction(s: Subst, f: Function)
    ensures DropFrom(s.Keys, RenameFunction(s, f)) == Rewritten(f, FoldPlan(s))
  {
    forall b | b in f.blocks
      ensures DropInsts(s.Keys, RenameBlock(s, f.blocks[b]))
          == NewPhis(FoldPlan(s), b) + RewriteBlock(FoldPlan(s), f.blocks[b])
    {
      DroppedBlock(s, f.blocks[b]);
    }
  }

  lemma {:induction false} KeptMember(ids: set<nat>, b: Block, k: nat)
    requires k < |DropInsts(ids, b)|
    ensures exists m :: 0 <= m < |b| && b[m] == DropInsts(ids, b)[k] && !(DefinesValue(b[m]) && b[m].id in ids)
  {
    var kept := !(DefinesValue(b[0]) && b[0].id in ids);
    if kept && k == 0 {
      assert b[0] == DropInsts(ids, b)[0];
    } else {
      var k' := if kept then k - 1 else k;
      KeptMember(ids, b[1..], k');
      var m :| 0 <= m < |b[1..]| && b[1..][m] == DropInsts(ids, b[1..])[k']
        && !(DefinesValue(b[1..][m]) && b[1..][m].id in ids);
      assert b[m + 1] == b[1..][m];
    }
  }

  /** With nothing waiting, no operation has two constant operands and no phi has one incoming value. */
  lemma FixpointReached(f: Function, s: Subst)
    requires Queued(f, s, [])
    ensures var r := DropFrom(s.Keys, RenameFunction(s, f));
      forall p {:trigger InstAt(r, p)} :: Within(r, p) ==>
        && (InstAt(r, p).BinaryInst? ==> !InstAt(r, p).lhs.Const? || !InstAt(r, p).rhs.Const?)
        && (InstAt(r, p).CompareInst? ==> !InstAt(r, p).lhs.Const? || !InstAt(r, p).rhs.Const?)
        && (InstAt(r, p).PhiInst? ==> |InstAt(r, p).incoming| != 1)
  {
    var g := RenameFunction(s, f);
    var r := DropFrom(s.Keys, g);
    forall p | Within(r, p)
      ensures !Foldable(InstAt(r, p))
    {
      KeptMember(s.Keys, g.blocks[p.block], p.index);
      var m :| 0 <= m < |g.blocks[p.block]| && g.blocks[p.block][m] == InstAt(r, p)
        && !(DefinesValue(g.blocks[p.block][m]) && g.blocks[p.block][m].id in s.Keys);
      RenamedAt(s, f, Pos(p.block, m));
      assert InstAt(r, p) == RenameInst(s, InstAt(f, Pos(p.block, m)));
      if Foldable(InstAt(r, p)) {
        RenameKeepsId(s, InstAt(f, Pos(p.block, m)));
      }
    }
  }

  /** The pass terminates, leaves nothing to fold, and rewrites the function by a sound plan. */
  method RunOn(target: FunctionObject, ghost at: Places) returns (ghost plan: Plan)
    requires Foldee(target.fn, at)
    modifies target
    ensures Sound(old(target.fn), at, plan) && target.fn == Rewritten(old(target.fn), plan)
    ensures plan == FoldPlan(plan.subst)
    ensures forall p {:trigger InstAt(target.fn, p)} :: Within(target.fn, p) ==>
        && (InstAt(target.fn, p).BinaryInst? ==> !InstAt(target.fn, p).lhs.Const? || !InstAt(target.fn, p).rhs.Const?)
        && (InstAt(target.fn, p).CompareInst? ==> !InstAt(target.fn, p).lhs.Const? || !InstAt(target.fn, p).rhs.Const?)
        && (InstAt(target.fn, p).PhiInst? ==> |InstAt(target.fn, p).incoming| != 1)
  {
    hide *;
    ghost var f := target.fn;
    OrderOf(f, at);
    var queue := Positions(target.fn, target.fn.order);
    var removed: set<nat> := {};
    ghost var w := Begin(f, at, queue);
    while queue != []
      invariant target.fn == RenameFunction(w.s, f) && Queued(f, w.s, queue)
      invariant w == Progress(f, at, w.s, w.rank) && removed == w.s.Keys
      decreases UsedIds(target.fn, at), |queue|
    {
      var p, rest := queue[|queue| - 1], queue[..|queue| - 1];
      assert queue == rest + [p];
      queue, removed, w := Round(target, p, rest, removed, w);
    }
    plan := FoldPlan(w.s);
    RemoveAll(target, removed);
    FixpointReached(f, w.s);
    DroppedFunction(w.s, f);
    FoldingIsSound(w);
    PlanOf(w.s);
  }

  lemma OrderOf(f: Function, at: Places)
    requires Foldee(f, at)
    ensures forall b :: b in f.order ==> b in f.blocks
  {
  }

  lemma PlanOf(s: Subst)
    ensures FoldPlan(s).subst == s
  {
  }

  /** Constant folding keeps every run: same blocks, same returned word, same memory and cells. */
  lemma FoldingKeepsRuns(f: Function, at: Places, plan: Plan, st: State, n: nat)
    requires Foldee(f, at) && Sound(f, at, plan) && plan == FoldPlan(plan.subst)
    ensures match RunFunction(f, st, n)
      case Return(v, st1) =>
        var o := RunFunction(Rewritten(f, plan), st, n);
        o.Return? && o.word == v && o.st.mem == st1.mem && forall c :: Lookup(o.st.cells, c) == Lookup(st1.cells, c)
      case Jump(d, st1) =>
        var o := RunFunction(Rewritten(f, plan), st, n);
        o.Jump? && o.dst == d && o.st.mem == st1.mem && forall c :: Lookup(o.st.cells, c) == Lookup(st1.cells, c)
      case Fell(_) => false
      case Stuck => true
  {
    SoundPlanKeepsRuns(f, at, plan, st, n);
    RunNeverFalls(f, Jump(Entry(f), st.(env := map[])), n);
  }

  lemma {:induction false} RunNeverFalls(f: Function, o: Outcome, n: nat)
    requires !o.Fell?
    ensures !Run(f, o, n).Fell?
    decreases n
  {
    if n > 0 && o.Jump? {
      RunNeverFalls(f, StepBlock(f, o.dst, o.st), n - 1);
    }
  }
}

/** When the copies that stand in for phis are right: the exact condition, over all paths. */
module Liveness {
  import opened Words
  import opened Graph
  import opened Dominance
  import opened Ir
  import opened Ssa
  import opened PhiCopies
  import opened CopyRuns
  import opened KeptResults

  // Block c reads x: in an instruction, or for a phi of a block it leads to.
  ghost predicate ReadsIn(f: Function, x: nat, c: BlockId)
    requires ValidFunction(f)
  {
    (exists p {:trigger InstAt(f, p)} :: Within(f, p) && p.block == c && Def(x) in Operands(InstAt(f, p)))
      || exists p {:trigger IsPhi(f, p)} :: IsPhi(f, p) && ReadsForPhi(f, x, c, p)
  }

  ghost predicate ReadsForPhi(f: Function, x: nat, c: BlockId, p: Pos)
    requires ValidFunction(f) && IsPhi(f, p)
  {
    HasEdge(CfgOf(f), c, p.block) && c in InstAt(f, p).incoming && InstAt(f, p).incoming[c] == Def(x)
  }

  predicate HasPhi(f: Function, d: BlockId, x: nat) {
    d in f.blocks && FindPhi(f.blocks[d], x).Some?
  }

  // The walk ends at a block that reads x and does not come to the block of a phi x on the way.
  ghost predicate IsReadingWalk(f: Function, x: nat, q: seq<BlockId>)
    requires ValidFunction(f)
  {
    && IsWalk(CfgOf(f), q) && (forall i :: 0 < i < |q| ==> !HasPhi(f, q[i], x)) && ReadsIn(f, x, q[|q| - 1])
  }

  /** x may be read once control has entered block d, before a phi gives it another value. */
  ghost predicate LiveAt(f: Function, x: nat, d: BlockId)
    requires ValidFunction(f)
  {
    exists q {:trigger IsReadingWalk(f, x, q)} :: IsReadingWalk(f, x, q) && q[0] == d
  }

  lemma ReadIsLive(f: Function, x: nat, b: BlockId)
    requires ValidFunction(f) && ReadsIn(f, x, b)
    ensures LiveAt(f, x, b)
  {
    hide ReadsIn, ValidFunction;
    assert IsReadingWalk(f, x, [b]);
  }

  lemma LiveBefore(f: Function, x: nat, b: BlockId, d: BlockId)
    requires ValidFunction(f) && HasEdge(CfgOf(f), b, d) && LiveAt(f, x, d) && !HasPhi(f, d, x)
    ensures LiveAt(f, x, b)
  {
    hide ReadsIn, HasEdge, EdgesOf, BlockTargets, HasPhi;
    var q :| IsReadingWalk(f, x, q) && q[0] == d;
    var r := [b] + q;
    forall i | 0 <= i < |r| - 1
      ensures HasEdge(CfgOf(f), r[i], r[i + 1])
    {
      if i > 0 {
        assert r[i] == q[i - 1] && r[i + 1] == q[i - 1 + 1];
      }
    }
    forall i | 0 < i < |r|
      ensures !HasPhi(f, r[i], x)
    {
      assert r[i] == q[i - 1];
    }
    assert r[|r| - 1] == q[|q| - 1];
    assert IsReadingWalk(f, x, r);
  }

  // ---- The condition

  // What the copies at the end of block b leave in the register of x.
  ghost function HeldAt(f: Function, b: BlockId, x: nat): Value
    requires ValidFunction(f)
  {
    Held(InstsOf(f), |InstsOf(f)|, b, Def(x))
  }

  // Something other than x itself.
  ghost predicate Overwritten(f: Function, b: BlockId, x: nat)
    requires ValidFunction(f)
  {
    HeldAt(f, b, x) != Def(x)
  }

  // A phi x of block d takes its value for b from the copies.
  ghost predicate Taken(f: Function, b: BlockId, d: BlockId, x: nat)
    requires ValidFunction(f) && HasPhi(f, d, x)
  {
    var incoming := FindPhi(f.blocks[d], x).value;
    b in incoming ==> HeldAt(f, b, x) == incoming[b]
  }

  // Control can pass from b to d, and x is read behind that.
  ghost predicate Matters(f: Function, b: BlockId, d: BlockId, x: nat)
    requires ValidFunction(f)
  {
    CanRun(f, b) && HasEdge(CfgOf(f), b, d) && LiveAt(f, x, d)
  }

  /** What is overwritten at the end of a block is not read behind it, unless a phi gives it its value there. */
  ghost predicate StaleHarmless(f: Function)
    requires ValidFunction(f)
  {
    forall b, d, x {:trigger Matters(f, b, d, x)} :: Matters(f, b, d, x) && !HasPhi(f, d, x) ==> !Overwritten(f, b, x)
  }

  /** The copies give every phi that is read the value it has for the block. */
  ghost predicate PhisServed(f: Function)
    requires ValidFunction(f)
  {
    forall b, d, x {:trigger Matters(f, b, d, x)} :: Matters(f, b, d, x) && HasPhi(f, d, x) ==> Taken(f, b, d, x)
  }

  // Every block ends at its only terminator.
  ghost predicate Shaped(f: Function) {
    forall b {:trigger f.blocks[b]} :: b in f.blocks ==> EndsOnce(f.blocks[b])
  }

  lemma ShapedOrder(f: Function)
    requires ValidFunction(f) && Shaped(f)
    ensures |f.order| > 0 && forall b :: b in f.order ==> b in f.blocks && f.blocks[b] != []
  {
  }

  ghost function CopyingFor(f: Function): (c: Copying)
    requires ValidFunction(f) && Shaped(f)
    ensures c.phis == InstsOf(f)
  {
    ShapedOrder(f);
    CopyingOf(f)
  }

  ghost function LastInst(f: Function, b: BlockId): Inst
    requires Shaped(f) && b in f.blocks
  {
    f.blocks[b][|f.blocks[b]| - 1]
  }

  /** No copy made before a condition or a returned value is read overwrites it. */
  ghost predicate BranchesServed(f: Function)
    requires ValidFunction(f) && Shaped(f)
  {
    forall b {:trigger CanRun(f, b)} :: CanRun(f, b) && b in f.blocks ==> ReadsRight(CopyingFor(f), b, LastInst(f, b))
  }

  /** Where the copies that stand in for phis do no harm. */
  ghost predicate CopiesHarmless(f: Function)
    requires ValidFunction(f) && Shaped(f)
  {
    StaleHarmless(f) && PhisServed(f) && BranchesServed(f)
  }

  // ---- It is exact

  // x has the value after the copies that it has in the function, if it has one there.
  ghost predicate RightFor(f: Function, b: BlockId, d: BlockId, x: nat, env: Env)
    requires ValidFunction(f) && d in f.blocks
  {
    (HasPhi(f, d, x) && b !in FindPhi(f.blocks[d], x).value)
      || Lookup(CopyInOrder(InstsOf(f), |InstsOf(f)|, b, env), x) == EntryValue(f.blocks[d], b, env, x)
  }

  // What the terminator reads has the value it has in the function.
  ghost predicate ReadRight(f: Function, b: BlockId, v: Value, env: Env)
    requires ValidFunction(f) && Shaped(f)
  {
    var c := CopyingFor(f);
    Eval(v, CopyInOrder(c.phis, ReadAfter(c, b), b, env)) == Eval(v, env)
  }

  // For all values of the results, what is read at the end of a block is right, and on every edge what is read behind
  // it.
  ghost predicate CopiesAreRight(f: Function)
    requires ValidFunction(f) && Shaped(f)
  {
    && (forall b, d, x, env {:trigger RightFor(f, b, d, x, env)} :: d in f.blocks && Matters(f, b, d, x) ==>
          RightFor(f, b, d, x, env))
    && (forall b, v, env {:trigger ReadRight(f, b, v, env)} ::
          CanRun(f, b) && b in f.blocks && v in Operands(LastInst(f, b)) ==> ReadRight(f, b, v, env))
  }

  ghost predicate PlainPhis(f: Function) {
    forall p, b {:trigger IsPhi(f, p), b in InstAt(f, p).incoming} :: IsPhi(f, p) && b in InstAt(f, p).incoming ==>
      InstAt(f, p).incoming[b].Const? || InstAt(f, p).incoming[b].Def?
  }

  lemma {:induction false} HeldPlain(d: Block, k: nat, b: BlockId, v: Value)
    requires k <= |d| && (v.Const? || v.Def?)
    requires forall j :: 0 <= j < |d| && IsCopy(d[j], b) ==> d[j].incoming[b].Const? || d[j].incoming[b].Def?
    ensures var h := Held(d, k, b, v); h.Const? || h.Def?
  {
    if k > 0 {
      HeldPlain(d, k - 1, b, if IsCopy(d[k - 1], b) && v == Def(d[k - 1].id) then d[k - 1].incoming[b] else v);
    }
  }

  lemma InstsPlain(f: Function, b: BlockId)
    requires ValidFunction(f) && PlainPhis(f)
    ensures forall j :: 0 <= j < |InstsOf(f)| && IsCopy(InstsOf(f)[j], b) ==>
      InstsOf(f)[j].incoming[b].Const? || InstsOf(f)[j].incoming[b].Def?
  {
    hide ValidFunction, PlainPhis;
    OrderInBlocks(f);
    forall j | 0 <= j < |InstsOf(f)| && IsCopy(InstsOf(f)[j], b)
      ensures InstsOf(f)[j].incoming[b].Const? || InstsOf(f)[j].incoming[b].Def?
    {
      var p := InstFrom(f, |f.order|, j);
      PlainPhi(f, p, b);
    }
  }

  lemma PlainPhi(f: Function, p: Pos, b: BlockId)
    requires PlainPhis(f) && IsPhi(f, p) && b in InstAt(f, p).incoming
    ensures InstAt(f, p).incoming[b].Const? || InstAt(f, p).incoming[b].Def?
  {
  }

  lemma OrderInBlocks(f: Function)
    requires ValidFunction(f)
    ensures |f.order| > 0 && forall b :: b in f.order ==> b in f.blocks
  {
  }

  lemma PhiIsPlain(f: Function, d: BlockId, x: nat, b: BlockId)
    requires PlainPhis(f) && HasPhi(f, d, x) && b in FindPhi(f.blocks[d], x).value
    ensures var v := FindPhi(f.blocks[d], x).value[b]; v.Const? || v.Def?
  {
    hide PlainPhis;
    FindPhiSome(f.blocks[d], x);
    var k :| 0 <= k < |f.blocks[d]| && f.blocks[d][k] == PhiInst(x, FindPhi(f.blocks[d], x).value);
    PlainPhi(f, Pos(d, k), b);
  }

  // One result on one edge.
  lemma RightExactly(f: Function, b: BlockId, d: BlockId, x: nat)
    requires ValidFunction(f) && PlainPhis(f) && d in f.blocks
    ensures (forall env :: RightFor(f, b, d, x, env)) <==>
      if HasPhi(f, d, x) then Taken(f, b, d, x) else !Overwritten(f, b, x)
  {
    hide ValidFunction, PlainPhis, CopyInOrder, Held, FindPhi, InstsOf;
    InstsPlain(f, b);
    OrderInBlocks(f);
    var all := InstsOf(f);
    var held := HeldAt(f, b, x);
    HeldPlain(all, |all|, b, Def(x));
    forall env
      ensures Lookup(CopyInOrder(all, |all|, b, env), x) == Eval(held, env)
    {
      HeldIs(all, |all|, b, env, Def(x));
    }
    var phi := FindPhi(f.blocks[d], x);
    if phi.None? {
      RightIs(f, b, d, x, held, Def(x));
    } else if b in phi.value {
      PhiIsPlain(f, d, x, b);
      RightIs(f, b, d, x, held, phi.value[b]);
    }
  }

  lemma RightIs(f: Function, b: BlockId, d: BlockId, x: nat, held: Value, expected: Value)
    requires ValidFunction(f) && d in f.blocks && (held.Const? || held.Def?) && (expected.Const? || expected.Def?)
    requires forall env :: Lookup(CopyInOrder(InstsOf(f), |InstsOf(f)|, b, env), x) == Eval(held, env)
    requires forall env :: RightFor(f, b, d, x, env) <==>
        Lookup(CopyInOrder(InstsOf(f), |InstsOf(f)|, b, env), x) == Eval(expected, env)
    ensures (forall env :: RightFor(f, b, d, x, env)) <==> held == expected
  {
    hide ValidFunction, RightFor, CopyInOrder, InstsOf;
    PlainValuesDiffer(held, expected);
    if forall env :: RightFor(f, b, d, x, env) {
      forall env
        ensures Eval(held, env) == Eval(expected, env)
      {
        assert RightFor(f, b, d, x, env);
      }
    }
  }

  lemma ReadExactly(f: Function, b: BlockId, v: Value)
    requires ValidFunction(f) && Shaped(f) && PlainPhis(f)
    ensures (forall env :: ReadRight(f, b, v, env)) <==>
        Held(CopyingFor(f).phis, ReadAfter(CopyingFor(f), b), b, v) == v
  {
    hide ValidFunction, PlainPhis, CopyInOrder, Held, InstsOf, Shaped, CopyingOf, ReadAfter;
    var c := CopyingFor(f);
    InstsPlain(f, b);
    var held := Held(c.phis, ReadAfter(c, b), b, v);
    forall env
      ensures ReadRight(f, b, v, env) <==> Eval(held, env) == Eval(v, env)
    {
      HeldIs(c.phis, ReadAfter(c, b), b, env, v);
    }
    if v.Const? || v.Def? {
      HeldPlain(c.phis, ReadAfter(c, b), b, v);
      PlainValuesDiffer(held, v);
      ReadIs(f, b, v, held);
    } else {
      HeldOther(c.phis, ReadAfter(c, b), b, v);
    }
  }

  lemma ReadIs(f: Function, b: BlockId, v: Value, held: Value)
    requires ValidFunction(f) && Shaped(f)
    requires forall env :: ReadRight(f, b, v, env) <==> Eval(held, env) == Eval(v, env)
    ensures (forall env :: ReadRight(f, b, v, env)) <==> forall env :: Eval(held, env) == Eval(v, env)
  {
    hide ValidFunction, Shaped, ReadRight, Eval;
    if forall env :: ReadRight(f, b, v, env) {
      forall env
        ensures Eval(held, env) == Eval(v, env)
      {
        assert ReadRight(f, b, v, env);
      }
    }
  }

  lemma {:induction false} HeldOther(d: Block, k: nat, b: BlockId, v: Value)
    requires k <= |d| && !v.Def?
    ensures Held(d, k, b, v) == v
  {
    if k > 0 {
      HeldOther(d, k - 1, b, v);
    }
  }

  /** The copies are right for all values exactly when what is overwritten is not read behind, phis get what they take
      and conditions and returned values are read in time. */
  lemma CopiesRightWhen(f: Function)
    requires ValidFunction(f) && Shaped(f) && PlainPhis(f)
    ensures CopiesAreRight(f) <==> CopiesHarmless(f)
  {
    hide ValidFunction, PlainPhis, RightFor, HasPhi, Overwritten, Taken, LiveAt, HasEdge, ReadRight, Shaped, CopyingFor,
      LastInst, CanRun, Held, InstsOf;
    forall b, d, x | Matters(f, b, d, x)
      ensures d in f.blocks
    {
      MattersInBlocks(f, b, d, x);
    }
    forall b, d, x | d in f.blocks
      ensures (forall env :: RightFor(f, b, d, x, env)) <==>
        if HasPhi(f, d, x) then Taken(f, b, d, x) else !Overwritten(f, b, x)
    {
      RightExactly(f, b, d, x);
    }
    forall b, v
      ensures (forall env :: ReadRight(f, b, v, env)) <==>
        Held(CopyingFor(f).phis, ReadAfter(CopyingFor(f), b), b, v) == v
    {
      ReadExactly(f, b, v);
    }
  }

  lemma MattersInBlocks(f: Function, b: BlockId, d: BlockId, x: nat)
    requires ValidFunction(f) && Matters(f, b, d, x)
    ensures d in f.blocks
  {
    hide HasEdge, LiveAt;
    EdgeToBlock(f, b, d);
  }

  lemma EdgeToBlock(f: Function, b: BlockId, d: BlockId)
    requires ValidFunction(f) && HasEdge(CfgOf(f), b, d)
    ensures b in f.blocks && d in f.blocks && d in BlockTargets(f.blocks[b])
  {
    CfgEdges(f, b, d);
  }

  /** A phi that is overwritten at the end of a block comes to no harm exactly when it is not live behind that block. */
  lemma StaleHarmlessWhen(f: Function, b: BlockId, d: BlockId, x: nat)
    requires ValidFunction(f) && PlainPhis(f) && CanRun(f, b) && HasEdge(CfgOf(f), b, d) && d in f.blocks
    requires !HasPhi(f, d, x) && Overwritten(f, b, x)
    ensures (Matters(f, b, d, x) ==> forall env :: RightFor(f, b, d, x, env)) <==> !LiveAt(f, x, d)
  {
    hide ValidFunction, PlainPhis, RightFor, HasPhi, Overwritten, LiveAt, HasEdge;
    RightExactly(f, b, d, x);
  }

  // ---- Phis with values for their predecessors

  // Among the blocks that can be run phis have values for exactly the predecessors, which end in a plain branch and
  // lead nowhere else.
  ghost predicate PhisMatch(f: Function)
    requires ValidFunction(f)
  {
    && (forall p, b {:trigger IsPhi(f, p), CanRun(f, b)} :: IsPhi(f, p) && CanRun(f, b) ==>
          (b in InstAt(f, p).incoming <==> HasEdge(CfgOf(f), b, p.block)))
    && (forall p, b, d {:trigger IsPhi(f, p), HasEdge(CfgOf(f), b, d)} ::
          IsPhi(f, p) && CanRun(f, b) && b in InstAt(f, p).incoming && HasEdge(CfgOf(f), b, d) ==> d == p.block)
    && (forall p, b {:trigger IsPhi(f, p), b in f.blocks} ::
          IsPhi(f, p) && b in f.blocks && b in InstAt(f, p).incoming ==> EndsPlainly(f.blocks[b]))
  }

  predicate EndsPlainly(b: Block) {
    b != [] && b[|b| - 1].BranchInst?
  }

  // And no copy takes what an earlier one of its block has overwritten.
  ghost predicate CopiesSafe(f: Function)
    requires ValidFunction(f)
  {
    forall p, b {:trigger IsPhi(f, p), HasEdge(CfgOf(f), b, p.block)} ::
      IsPhi(f, p) && HasEdge(CfgOf(f), b, p.block) && CanRun(f, b) ==>
        SafeCopies(f.blocks[p.block], |f.blocks[p.block]|, b)
  }

  ghost predicate ResultsDiffer(f: Function) {
    forall d {:trigger f.blocks[d]} :: d in f.blocks ==> PhisDiffer(f.blocks[d])
  }

  ghost predicate NoCopiesIn(d: Block, b: BlockId) {
    forall j :: 0 <= j < |d| ==> !IsCopy(d[j], b)
  }

  lemma {:induction false} CopiesInTwo(a: Block, c: Block, k: nat, b: BlockId, env: Env)
    requires k <= |c|
    ensures CopyInOrder(a + c, |a| + k, b, env) == CopyInOrder(c, k, b, CopyInOrder(a, |a|, b, env))
    decreases k
  {
    if k == 0 {
      CopiesOfPrefix(a, c, |a|, b, env);
    } else {
      CopiesInTwo(a, c, k - 1, b, env);
      assert (a + c)[|a| + k - 1] == c[k - 1];
    }
  }

  lemma {:induction false} CopiesOfPrefix(a: Block, c: Block, k: nat, b: BlockId, env: Env)
    requires k <= |a|
    ensures CopyInOrder(a + c, k, b, env) == CopyInOrder(a, k, b, env)
  {
    if k > 0 {
      CopiesOfPrefix(a, c, k - 1, b, env);
      assert (a + c)[k - 1] == a[k - 1];
    }
  }

  lemma {:induction false} NothingIsCopied(d: Block, k: nat, b: BlockId, env: Env)
    requires NoCopiesIn(d, b) && k <= |d|
    ensures CopyInOrder(d, k, b, env) == env
  {
    if k > 0 {
      NothingIsCopied(d, k - 1, b, env);
    }
  }

  lemma {:induction false} OnlyFrom(f: Function, o: nat, b: BlockId, d: BlockId, env: Env)
    requires o <= |f.order| && d in f.blocks && forall c :: c in f.order ==> c in f.blocks
    requires forall i, j :: 0 <= i < j < |f.order| ==> f.order[i] != f.order[j]
    requires forall c :: c in f.blocks && c != d ==> NoCopiesIn(f.blocks[c], b)
    ensures CopyInOrder(InstsUpTo(f, o), |InstsUpTo(f, o)|, b, env)
         == if d in f.order[..o] then CopyInOrder(f.blocks[d], |f.blocks[d]|, b, env) else env
    decreases o
  {
    hide CopyInOrder, NoCopiesIn;
    if o == 0 {
      NothingIsCopied([], 0, b, env);
    } else {
      var c := f.order[o - 1];
      var e := CopyInOrder(InstsUpTo(f, o - 1), |InstsUpTo(f, o - 1)|, b, env);
      OnlyFrom(f, o - 1, b, d, env);
      CopiesInTwo(InstsUpTo(f, o - 1), f.blocks[c], |f.blocks[c]|, b, env);
      assert f.order[..o] == f.order[..o - 1] + [c];
      if c != d {
        NothingIsCopied(f.blocks[c], |f.blocks[c]|, b, e);
      }
    }
  }

  lemma CopiesOnEdge(f: Function, b: BlockId, d: BlockId, c: BlockId)
    requires ValidFunction(f) && PhisMatch(f) && CanRun(f, b) && HasEdge(CfgOf(f), b, d) && c in f.blocks && c != d
    ensures NoCopiesIn(f.blocks[c], b)
  {
    hide ValidFunction, HasEdge;
    forall j | 0 <= j < |f.blocks[c]|
      ensures !IsCopy(f.blocks[c][j], b)
    {
      var p := Pos(c, j);
      assert f.blocks[c][j] == InstAt(f, p);
      assert f.blocks[c][j].PhiInst? ==> IsPhi(f, p);
    }
  }

  lemma SafeOnEdge(f: Function, b: BlockId, d: BlockId)
    requires ValidFunction(f) && CopiesSafe(f) && CanRun(f, b) && HasEdge(CfgOf(f), b, d) && d in f.blocks
    ensures SafeCopies(f.blocks[d], |f.blocks[d]|, b)
  {
    hide ValidFunction, HasEdge;
    if j: nat :| j < |f.blocks[d]| && f.blocks[d][j].PhiInst? {
      assert IsPhi(f, Pos(d, j));
    }
  }

  /** Such functions meet the condition. */
  lemma MatchingPhisServe(f: Function)
    requires ValidFunction(f) && Shaped(f) && PlainPhis(f) && ResultsDiffer(f) && PhisMatch(f) && CopiesSafe(f)
    ensures CopiesHarmless(f)
  {
    hide ValidFunction, PlainPhis, ResultsDiffer, PhisMatch, CopiesSafe, HasEdge, CopiesHarmless, RightFor, LiveAt,
      Shaped, ReadRight, LastInst;
    forall b, v, env | CanRun(f, b) && b in f.blocks && v in Operands(LastInst(f, b))
      ensures ReadRight(f, b, v, env)
    {
      ReadUntouched(f, b, v, env);
    }
    forall b, d, x, env | d in f.blocks && Matters(f, b, d, x)
      ensures RightFor(f, b, d, x, env)
    {
      RightOnEdge(f, b, d, x, env);
    }
    CopiesRightWhen(f);
  }

  // Where something is read at the end, nothing is copied.
  lemma ReadUntouched(f: Function, b: BlockId, v: Value, env: Env)
    requires ValidFunction(f) && Shaped(f) && PhisMatch(f) && b in f.blocks && v in Operands(LastInst(f, b))
    ensures ReadRight(f, b, v, env)
  {
    hide ValidFunction, HasEdge, CanRun, CopyInOrder, CopyingOf;
    ShapedOrder(f);
    var c := CopyingFor(f);
    forall j | 0 <= j < |c.phis|
      ensures !IsCopy(c.phis[j], b)
    {
      var p := InstFrom(f, |f.order|, j);
      assert InstAt(f, p).PhiInst? ==> IsPhi(f, p);
    }
    NothingIsCopied(c.phis, ReadAfter(c, b), b, env);
  }

  lemma RightOnEdge(f: Function, b: BlockId, d: BlockId, x: nat, env: Env)
    requires ValidFunction(f) && ResultsDiffer(f) && PhisMatch(f) && CopiesSafe(f) && d in f.blocks
    requires CanRun(f, b) && HasEdge(CfgOf(f), b, d)
    ensures RightFor(f, b, d, x, env)
  {
    hide PhisMatch, CopiesSafe, HasEdge, CopyInOrder, NoCopiesIn, SafeCopies, PhisDiffer, FindPhi, CanRun, CfgOf;
    OrderInBlocks(f);
    forall c | c in f.blocks && c != d
      ensures NoCopiesIn(f.blocks[c], b)
    {
      CopiesOnEdge(f, b, d, c);
    }
    OnlyFrom(f, |f.order|, b, d, env);
    assert f.order[..|f.order|] == f.order;
    SafeOnEdge(f, b, d);
    SafeEntry(f.blocks[d], b, env, x);
  }

  // ---- The results that matter

  // What may be read from each block on that can be run.
  ghost function KeepOf(f: Function, at: Places): Keep
    requires ValidFunction(f)
  {
    map b | b in f.blocks && CanRun(f, b) :: set x | x in at && LiveAt(f, x, b)
  }

  lemma EntryKept(f: Function, at: Places)
    requires ValidFunction(f)
    ensures Entry(f) in KeepOf(f, at)
  {
    EntryReachable(CfgOf(f));
  }

  lemma ReadKept(f: Function, at: Places, p: Pos)
    requires WellFormed(f, at) && Within(f, p) && CanRun(f, p.block)
    ensures ReadsKept(KeepOf(f, at)[p.block], InstAt(f, p))
  {
    hide Located, IncomingAvail, CanRun, LiveAt, Precedes;
    assert OperandsAvail(f, at, p);
    forall x | Def(x) in Operands(InstAt(f, p))
      ensures x in at && LiveAt(f, x, p.block)
    {
      ReadIsLive(f, x, p.block);
    }
  }

  lemma TakenIsLive(f: Function, at: Places, b: BlockId, d: BlockId, x: nat)
    requires WellFormed(f, at) && HasEdge(CfgOf(f), b, d) && HasPhi(f, d, x) && b in FindPhi(f.blocks[d], x).value
    ensures var v := FindPhi(f.blocks[d], x).value[b]; v.Def? ==> v.id in at && LiveAt(f, v.id, b)
  {
    hide Located, OperandsAvail, Precedes, LiveAt, FindPhi, ValidFunction, HasEdge;
    var v := FindPhi(f.blocks[d], x).value[b];
    FindPhiSome(f.blocks[d], x);
    var k :| 0 <= k < |f.blocks[d]| && f.blocks[d][k] == PhiInst(x, FindPhi(f.blocks[d], x).value);
    if v.Def? {
      var p := Pos(d, k);
      assert v == Def(v.id) && IsPhi(f, p) && ReadsForPhi(f, v.id, b, p);
      ReadIsLive(f, v.id, b);
      IncomingOf(f, at, p, b);
    }
  }

  lemma ResultArrives(f: Function, at: Places, b: BlockId, d: BlockId, x: nat)
    requires WellFormed(f, at) && StaleHarmless(f) && PhisServed(f) && CanRun(f, b) && HasEdge(CfgOf(f), b, d)
    requires Shaped(f) && b in f.blocks && d in f.blocks && x in at && LiveAt(f, x, d)
    ensures Arrives(f, CopyingFor(f), KeepOf(f, at), b, d, x)
  {
    hide Located, OperandsAvail, IncomingAvail, LiveAt, FindPhi, ValidFunction, HasEdge, Held, InstsOf, CanRun,
      StaleHarmless, PhisServed;
    GivenOnEdge(f, b, d, x);
    if HasPhi(f, d, x) {
      if b in FindPhi(f.blocks[d], x).value {
        TakenIsLive(f, at, b, d, x);
      }
    } else {
      LiveBefore(f, x, b, d);
    }
  }

  lemma GivenOnEdge(f: Function, b: BlockId, d: BlockId, x: nat)
    requires ValidFunction(f) && StaleHarmless(f) && PhisServed(f) && Matters(f, b, d, x)
    ensures if HasPhi(f, d, x) then Taken(f, b, d, x) else !Overwritten(f, b, x)
  {
    hide ValidFunction, Matters, HasPhi, Taken, Overwritten;
  }

  /** Under the condition the copies bring along every path what is read on it. */
  lemma CopiesServe(f: Function, at: Places)
    requires WellFormed(f, at) && Shaped(f) && CopiesHarmless(f)
    ensures Served(f, CopyingFor(f), KeepOf(f, at))
  {
    hide Located, OperandsAvail, IncomingAvail, LiveAt, HasEdge, ReadsKept, Arrives, StaleHarmless, PhisServed,
      BlockTargets, InstsOf, CopyingFor, Shaped, EndsOnce, ReadsRight;
    var keep := KeepOf(f, at);
    forall b | b in keep
      ensures BlockServed(f, CopyingFor(f), keep, b)
    {
      forall k | 0 <= k < |f.blocks[b]|
        ensures ReadsKept(keep[b], f.blocks[b][k])
      {
        ReadKept(f, at, Pos(b, k));
      }
      forall d | d in BlockTargets(f.blocks[b])
        ensures d in keep && d in f.blocks && EdgeServed(f, CopyingFor(f), keep, b, d)
      {
        EdgeIsServed(f, at, b, d);
      }
      EndIsServed(f, b);
    }
  }

  lemma EndIsServed(f: Function, b: BlockId)
    requires ValidFunction(f) && Shaped(f) && BranchesServed(f) && CanRun(f, b) && b in f.blocks
    ensures EndsOnce(f.blocks[b]) && f.blocks[b] != []
    ensures ReadsRight(CopyingFor(f), b, f.blocks[b][|f.blocks[b]| - 1])
  {
    hide ReadsRight, CopyingFor;
  }

  lemma EdgeIsServed(f: Function, at: Places, b: BlockId, d: BlockId)
    requires WellFormed(f, at) && Shaped(f) && StaleHarmless(f) && PhisServed(f)
    requires b in KeepOf(f, at) && b in f.blocks && d in BlockTargets(f.blocks[b])
    ensures d in KeepOf(f, at) && d in f.blocks && EdgeServed(f, CopyingFor(f), KeepOf(f, at), b, d)
  {
    hide Located, OperandsAvail, IncomingAvail, LiveAt, HasEdge, Arrives, StaleHarmless, PhisServed, BlockTargets,
      InstsOf, Reachable, CopyingFor, Shaped;
    CfgEdges(f, b, d);
    ReachableStep(CfgOf(f), b, d);
    forall x | x in KeepOf(f, at)[d]
      ensures Arrives(f, CopyingFor(f), KeepOf(f, at), b, d, x)
    {
      ResultArrives(f, at, b, d, x);
    }
  }
}

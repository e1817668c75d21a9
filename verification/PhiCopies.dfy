/** Copies made one after another against phis that take their values together. */
module PhiCopies {
  import opened Words
  import opened Ir

  // The first k phis of a block entered from b, copied in order.
  function CopyInOrder(d: Block, k: nat, b: BlockId, env: Env): Env
    requires k <= |d|
  {
    if k == 0 then env
    else
      var e := CopyInOrder(d, k - 1, b, env);
      if d[k - 1].PhiInst? && b in d[k - 1].incoming then Bind(e, d[k - 1].id, Eval(d[k - 1].incoming[b], e)) else e
  }

  predicate IsCopy(i: Inst, b: BlockId) {
    i.PhiInst? && b in i.incoming
  }

  // An earlier copy overwrites a value that a later one takes.
  predicate Clobbers(d: Block, i: nat, j: nat, b: BlockId)
    requires i < |d| && j < |d|
  {
    IsCopy(d[i], b) && IsCopy(d[j], b) && d[j].incoming[b] == Def(d[i].id) && d[i].incoming[b] != Def(d[i].id)
  }

  /** No phi takes an earlier phi of its own block, unless that one keeps its value. */
  ghost predicate SafeCopies(d: Block, k: nat, b: BlockId)
    requires k <= |d|
  {
    forall i, j :: 0 <= i < j < k ==> !Clobbers(d, i, j, b)
  }

  ghost predicate PhisDiffer(d: Block) {
    forall i, j :: 0 <= i < j < |d| && d[i].PhiInst? && d[j].PhiInst? ==> d[i].id != d[j].id
  }

  ghost predicate CopiedBefore(d: Block, k: nat, b: BlockId, x: nat)
    requires k <= |d|
  {
    exists j :: 0 <= j < k && IsCopy(d[j], b) && d[j].id == x
  }

  lemma {:induction false} NotCopied(d: Block, k: nat, b: BlockId, env: Env, x: nat)
    requires k <= |d| && !CopiedBefore(d, k, b, x)
    ensures Lookup(CopyInOrder(d, k, b, env), x) == Lookup(env, x)
  {
    if k > 0 {
      assert !(IsCopy(d[k - 1], b) && d[k - 1].id == x);
      NotCopied(d, k - 1, b, env, x);
    }
  }

  // A safe sequence of copies gives each phi what its value was at the start.
  lemma {:induction false} SafeCopied(d: Block, k: nat, b: BlockId, env: Env, j: nat)
    requires j < k <= |d| && PhisDiffer(d) && SafeCopies(d, k, b) && IsCopy(d[j], b)
    ensures Lookup(CopyInOrder(d, k, b, env), d[j].id) == Eval(d[j].incoming[b], env)
    decreases k, 0
  {
    if j < k - 1 {
      SafeCopied(d, k - 1, b, env, j);
    } else {
      SafeOperand(d, k - 1, b, env);
    }
  }

  // What a copy takes has not been overwritten by the safe copies before it.
  lemma {:induction false} SafeOperand(d: Block, k: nat, b: BlockId, env: Env)
    requires k < |d| && PhisDiffer(d) && SafeCopies(d, k + 1, b) && IsCopy(d[k], b)
    ensures Eval(d[k].incoming[b], CopyInOrder(d, k, b, env)) == Eval(d[k].incoming[b], env)
    decreases k, 1
  {
    var v := d[k].incoming[b];
    if v.Def? {
      if CopiedBefore(d, k, b, v.id) {
        var i :| 0 <= i < k && IsCopy(d[i], b) && d[i].id == v.id;
        assert !Clobbers(d, i, k, b);
        SafeCopied(d, k, b, env, i);
      } else {
        NotCopied(d, k, b, env, v.id);
      }
    }
  }

  lemma CopyFound(d: Block, b: BlockId, x: nat)
    requires PhisDiffer(d)
    ensures FindPhi(d, x).None? ==> !CopiedBefore(d, |d|, b, x)
    ensures FindPhi(d, x).Some? ==> exists j :: 0 <= j < |d| && d[j] == PhiInst(x, FindPhi(d, x).value)
    ensures FindPhi(d, x).Some? && b !in FindPhi(d, x).value ==> !CopiedBefore(d, |d|, b, x)
  {
    FindPhiSome(d, x);
    if CopiedBefore(d, |d|, b, x) {
      var j :| 0 <= j < |d| && IsCopy(d[j], b) && d[j].id == x;
    }
  }

  // The value of x after safe copies is the one it has on entry.
  lemma SafeEntry(d: Block, b: BlockId, env: Env, x: nat)
    requires PhisDiffer(d) && SafeCopies(d, |d|, b)
    ensures (FindPhi(d, x).Some? && b !in FindPhi(d, x).value)
        || Lookup(CopyInOrder(d, |d|, b, env), x) == EntryValue(d, b, env, x)
  {
    CopyFound(d, b, x);
    var phi := FindPhi(d, x);
    if phi.Some? && b in phi.value {
      var j :| 0 <= j < |d| && d[j] == PhiInst(x, phi.value);
      SafeCopied(d, |d|, b, env, j);
    } else {
      NotCopied(d, |d|, b, env, x);
    }
  }

  // ---- The exact condition

  ghost predicate Covers(d: Block, b: BlockId) {
    forall j :: 0 <= j < |d| && d[j].PhiInst? ==> b in d[j].incoming
  }

  ghost predicate CopiesRight(d: Block, b: BlockId, env: Env) {
    CopyInOrder(d, |d|, b, env) == EnterEnv(d, b, env)
  }

  lemma SafeIsRight(d: Block, b: BlockId, env: Env)
    requires PhisDiffer(d) && Covers(d, b) && SafeCopies(d, |d|, b)
    ensures CopiesRight(d, b, env)
  {
    forall x
      ensures Lookup(CopyInOrder(d, |d|, b, env), x) == Lookup(EnterEnv(d, b, env), x)
    {
      SafeEntry(d, b, env, x);
      EnterLookup(d, b, env, x);
      CopyFound(d, b, x);
    }
    SameMaps(CopyInOrder(d, |d|, b, env), EnterEnv(d, b, env));
  }

  lemma SameMaps(a: Env, b: Env)
    requires forall x :: Lookup(a, x) == Lookup(b, x)
    ensures a == b
  {
    forall x
      ensures x in a <==> x in b
      ensures x in a ==> a[x] == b[x]
    {
      assert Lookup(a, x) == Lookup(b, x);
    }
  }

  // The first copy that takes an overwritten value.
  lemma {:induction false} FirstClobbered(d: Block, b: BlockId, k: nat) returns (i: nat, j: nat)
    requires k <= |d| && !SafeCopies(d, k, b)
    ensures i < j < k && Clobbers(d, i, j, b) && SafeCopies(d, j, b)
  {
    if SafeCopies(d, k - 1, b) {
      i, j :| 0 <= i < j < k && Clobbers(d, i, j, b);
    } else {
      i, j := FirstClobbered(d, b, k - 1);
    }
  }

  // Values that show the overwritten value to be wrong.
  function Witness(x: nat, v: Value): Env {
    if v.Const? then map[x := Wrap(v.word + 1)]
    else if v.Def? then map[x := 0, v.id := 1]
    else map[x := 0]
  }

  lemma {:induction false} KeptAfter(d: Block, k: nat, n: nat, b: BlockId, env: Env)
    requires k < n <= |d| && PhisDiffer(d) && IsCopy(d[k], b)
    ensures Lookup(CopyInOrder(d, n, b, env), d[k].id) == Eval(d[k].incoming[b], CopyInOrder(d, k, b, env))
    decreases n
  {
    if k < n - 1 {
      KeptAfter(d, k, n - 1, b, env);
    }
  }

  lemma ClobberedIsWrong(d: Block, b: BlockId, i: nat, j: nat)
    requires PhisDiffer(d) && Covers(d, b) && i < j < |d| && Clobbers(d, i, j, b) && SafeCopies(d, j, b)
    ensures !CopiesRight(d, b, Witness(d[i].id, d[i].incoming[b]))
  {
    var env := Witness(d[i].id, d[i].incoming[b]);
    KeptAfter(d, j, |d|, b, env);
    SafeCopied(d, j, b, env, i);
    EnterLookup(d, b, env, d[j].id);
    FindPhiSome(d, d[j].id);
    assert EntryValue(d, b, env, d[j].id) == Eval(d[j].incoming[b], env);
    assert Eval(d[i].incoming[b], env) != Lookup(env, d[i].id);
  }

  /** Copying the phis in order is right for every environment exactly when the copies are safe. */
  lemma CopiesRightExactly(d: Block, b: BlockId)
    requires PhisDiffer(d) && Covers(d, b)
    ensures (forall env :: CopiesRight(d, b, env)) <==> SafeCopies(d, |d|, b)
  {
    if SafeCopies(d, |d|, b) {
      forall env
        ensures CopiesRight(d, b, env)
      {
        SafeIsRight(d, b, env);
      }
    } else {
      var i, j := FirstClobbered(d, b, |d|);
      ClobberedIsWrong(d, b, i, j);
    }
  }

  // ---- Copies of the phis of several blocks

  // What a value stands for after the first k copies, in terms of the values before them.
  function Held(d: Block, k: nat, b: BlockId, v: Value): Value
    requires k <= |d|
  {
    if k == 0 then v
    else if IsCopy(d[k - 1], b) && v == Def(d[k - 1].id) then Held(d, k - 1, b, d[k - 1].incoming[b])
    else Held(d, k - 1, b, v)
  }

  lemma {:induction false} HeldIs(d: Block, k: nat, b: BlockId, env: Env, v: Value)
    requires k <= |d|
    ensures Eval(v, CopyInOrder(d, k, b, env)) == Eval(Held(d, k, b, v), env)
    decreases k
  {
    if k > 0 {
      var i := d[k - 1];
      if IsCopy(i, b) && v == Def(i.id) {
        HeldIs(d, k - 1, b, env, i.incoming[b]);
      } else {
        HeldIs(d, k - 1, b, env, v);
      }
    }
  }

  lemma {:induction false} HeldWithoutCopies(d: Block, k: nat, b: BlockId, v: Value)
    requires k <= |d| && forall j :: 0 <= j < k ==> !IsCopy(d[j], b)
    ensures Held(d, k, b, v) == v
  {
    if k > 0 {
      HeldWithoutCopies(d, k - 1, b, v);
    }
  }

  lemma PlainValuesDiffer(u: Value, v: Value)
    requires (u.Const? || u.Def?) && (v.Const? || v.Def?)
    ensures (forall env :: Eval(u, env) == Eval(v, env)) <==> u == v
  {
    if u != v {
      var env: Env := if u.Def? then Witness(u.id, v) else if v.Def? then Witness(v.id, u) else map[];
      assert Eval(u, env) != Eval(v, env);
    }
  }
}

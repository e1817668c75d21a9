/** A run that comes back to the entry never returns, as long as the function keeps to its variables. */
module Reentry {
  import opened Words
  import opened Ir
  import opened Ssa
  import opened PhiCopies
  import opened CopyRuns

  // Loads and stores go to variables.
  ghost predicate NoMemory(f: Function) {
    forall p {:trigger InstAt(f, p)} :: Within(f, p) ==> OnVariables(InstAt(f, p))
  }

  predicate OnVariables(i: Inst) {
    (i.LoadInst? || i.StoreInst?) ==> i.ptr.Alloc?
  }

  // The second state knows all that the first one does.
  ghost predicate Below(st: State, st': State) {
    && st'.mem == st.mem
    && (forall x {:trigger x in st.env} :: x in st.env ==> x in st'.env && st'.env[x] == st.env[x])
    && (forall c {:trigger c in st.cells} :: c in st.cells ==> c in st'.cells && st'.cells[c] == st.cells[c])
  }

  // The second outcome goes the same way, unless the first is stuck.
  ghost predicate Follows(o: Outcome, o': Outcome) {
    match o
    case Fell(st) => o'.Fell? && Below(st, o'.st)
    case Jump(d, st) => o'.Jump? && o'.dst == d && Below(st, o'.st)
    case Return(v, st) => o'.Return? && o'.word == v && Below(st, o'.st)
    case Stuck => true
  }

  lemma EvalBelow(st: State, st': State, v: Value)
    requires Below(st, st')
    ensures Eval(v, st.env).Some? ==> Eval(v, st'.env) == Eval(v, st.env)
  {
  }

  lemma ExecFollows(i: Inst, st: State, st': State)
    requires Below(st, st') && OnVariables(i)
    ensures Follows(ExecInst(i, st), ExecInst(i, st'))
    ensures ExecInst(i, st).Fell? ==> ExecInst(i, st).st.mem == st.mem
  {
    hide EvalBinary, EvalCompare;
    forall v
      ensures Eval(v, st.env).Some? ==> Eval(v, st'.env) == Eval(v, st.env)
    {
      EvalBelow(st, st', v);
    }
  }

  lemma {:induction false} ExecAllFollows(b: Block, st: State, st': State)
    requires Below(st, st') && forall k :: 0 <= k < |b| ==> OnVariables(b[k])
    ensures Follows(ExecInsts(b, st), ExecInsts(b, st'))
  {
    hide Below, ExecInst, OnVariables;
    if b != [] {
      ExecFollows(b[0], st, st');
      if ExecInst(b[0], st).Fell? {
        ExecAllFollows(b[1..], ExecInst(b[0], st).st, ExecInst(b[0], st').st);
      }
    }
  }

  lemma {:induction false} CopiesBelow(phis: Block, k: nat, b: BlockId, st: State, st': State)
    requires Below(st, st') && k <= |phis|
    ensures Below(st.(env := CopyInOrder(phis, k, b, st.env)), st'.(env := CopyInOrder(phis, k, b, st'.env)))
  {
    if k > 0 {
      CopiesBelow(phis, k - 1, b, st, st');
      if IsCopy(phis[k - 1], b) {
        var e, e' := CopyInOrder(phis, k - 1, b, st.env), CopyInOrder(phis, k - 1, b, st'.env);
        EvalBelow(st.(env := e), st'.(env := e'), phis[k - 1].incoming[b]);
      }
    }
  }

  lemma BlockOnVariables(f: Function, b: BlockId)
    requires NoMemory(f) && b in f.blocks
    ensures forall k :: 0 <= k < |f.blocks[b]| ==> OnVariables(f.blocks[b][k])
  {
    hide OnVariables;
    forall k | 0 <= k < |f.blocks[b]|
      ensures OnVariables(f.blocks[b][k])
    {
      assert f.blocks[b][k] == InstAt(f, Pos(b, k));
    }
  }

  lemma StepFollows(f: Function, c: Copying, b: BlockId, st: State, st': State)
    requires NoMemory(f) && Below(st, st')
    ensures Follows(StepCopies(f, c, b, st), StepCopies(f, c, b, st'))
  {
    hide Below, CopyInOrder, ExecInsts, ExecInst, OnVariables, NoMemory;
    if b in f.blocks && f.blocks[b] != [] {
      var last := |f.blocks[b]| - 1;
      BlockOnVariables(f, b);
      ExecAllFollows(f.blocks[b][..last], st, st');
      var e, e' := ExecInsts(f.blocks[b][..last], st), ExecInsts(f.blocks[b][..last], st');
      if e.Fell? {
        CopiesBelow(c.phis, |c.phis|, b, e.st, e'.st);
        CopiesBelow(c.phis, ReadAfter(c, b), b, e.st, e'.st);
        ExecFollows(f.blocks[b][last], ReadState(c, b, e.st), ReadState(c, b, e'.st));
      }
    }
  }

  lemma {:induction false} RunsFollow(f: Function, c: Copying, o: Outcome, o': Outcome, n: nat)
    requires NoMemory(f) && Follows(o, o')
    ensures Follows(RunCopies(f, c, o, n), RunCopies(f, c, o', n))
    decreases n
  {
    hide Below, StepCopies, NoMemory;
    if n > 0 && o.Jump? {
      StepFollows(f, c, o.dst, o.st, o'.st);
      RunsFollow(f, c, StepCopies(f, c, o.dst, o.st), StepCopies(f, c, o'.dst, o'.st), n - 1);
    }
  }

  lemma {:induction false} RunInTwo(f: Function, c: Copying, o: Outcome, a: nat, b: nat)
    ensures RunCopies(f, c, o, a + b) == RunCopies(f, c, RunCopies(f, c, o, a), b)
    decreases a
  {
    hide StepCopies;
    if a > 0 && o.Jump? {
      RunInTwo(f, c, StepCopies(f, c, o.dst, o.st), a - 1, b);
    }
  }

  lemma {:induction false} RunOfDone(f: Function, c: Copying, o: Outcome, n: nat)
    ensures !o.Jump? ==> RunCopies(f, c, o, n) == o
  {
  }

  // The memory of a run is the one it started with.
  lemma {:induction false} ExecKeepsMemory(b: Block, st: State)
    requires forall k :: 0 <= k < |b| ==> OnVariables(b[k])
    ensures var o := ExecInsts(b, st); !o.Stuck? ==> o.st.mem == st.mem
  {
    hide EvalBinary, EvalCompare;
    if b != [] && ExecInst(b[0], st).Fell? {
      ExecKeepsMemory(b[1..], ExecInst(b[0], st).st);
    }
  }

  lemma {:induction false} RunKeepsMemory(f: Function, c: Copying, o: Outcome, n: nat)
    requires NoMemory(f) && !o.Stuck?
    ensures var r := RunCopies(f, c, o, n); !r.Stuck? ==> r.st.mem == o.st.mem
    decreases n
  {
    hide OnVariables, ExecInsts, ExecInst, CopyInOrder, NoMemory;
    if n > 0 && o.Jump? {
      var next := StepCopies(f, c, o.dst, o.st);
      if o.dst in f.blocks && f.blocks[o.dst] != [] {
        BlockOnVariables(f, o.dst);
        ExecKeepsMemory(f.blocks[o.dst][..|f.blocks[o.dst]| - 1], o.st);
      }
      if next.Stuck? {
        RunOfDone(f, c, next, n - 1);
      } else {
        RunKeepsMemory(f, c, next, n - 1);
      }
    }
  }

  ghost function CallStart(f: Function, mem: Memory): Outcome
    requires |f.order| > 0
  {
    Jump(Entry(f), State(map[], map[], mem))
  }

  // The first step after which the run has returned.
  lemma {:induction false} ReturnStep(f: Function, c: Copying, o: Outcome, n: nat) returns (r: nat)
    requires o.Jump? && RunCopies(f, c, o, n).Return?
    ensures 0 < r <= n && RunCopies(f, c, o, r).Return? && RunCopies(f, c, o, r - 1).Jump?
    ensures forall i :: 0 <= i < r ==> RunCopies(f, c, o, i).Jump?
    decreases n
  {
    hide StepCopies;
    var next := StepCopies(f, c, o.dst, o.st);
    RunInTwo(f, c, o, 1, 0);
    if next.Return? {
      r := 1;
    } else {
      RunOfDone(f, c, next, n - 1);
      var s := ReturnStep(f, c, next, n - 1);
      r := s + 1;
      forall i | 0 <= i < r
        ensures RunCopies(f, c, o, i).Jump?
      {
        if i > 0 {
          assert RunCopies(f, c, o, i) == RunCopies(f, c, next, i - 1);
        }
      }
    }
  }

  /** Whenever a run that keeps to its variables comes back to the entry, it does so for ever. */
  lemma ReenteredNeverReturns(f: Function, c: Copying, mem: Memory, j: nat, n: nat)
    requires |f.order| > 0 && NoMemory(f) && j > 0
    requires RunCopies(f, c, CallStart(f, mem), j).Jump? && RunCopies(f, c, CallStart(f, mem), j).dst == Entry(f)
    ensures !RunCopies(f, c, CallStart(f, mem), n).Return?
  {
    hide NoMemory, RunCopies;
    var o := CallStart(f, mem);
    if RunCopies(f, c, o, n).Return? {
      var r := ReturnStep(f, c, o, n);
      var again := RunCopies(f, c, o, j);
      RunKeepsMemory(f, c, o, j);
      assert Follows(o, again);
      if j >= r {
        RunInTwo(f, c, o, r, j - r);
        RunOfDone(f, c, RunCopies(f, c, o, r), j - r);
      } else {
        RunsFollow(f, c, o, again, r - j);
        RunInTwo(f, c, o, j, r - j);
      }
    }
  }
}

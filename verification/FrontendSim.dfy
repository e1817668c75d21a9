/** The translated blocks and the machine go through the same states. */
module FrontendSim {
  import opened Words
  import opened X86
  import opened Ir
  import opened FrontendCode
  import opened Frontend

  // ---- The machine, one instruction at a time

  datatype Control =
    | At(index: nat, m: Machine)
    | Returned(word: Word, m: Machine)
    | Fault

  function Find(insts: seq<MachineInst>, offset: nat): (k: Option<nat>)
    ensures k.Some? ==> k.value < |insts| && insts[k.value].offset == offset
    ensures k.None? ==> forall j :: 0 <= j < |insts| ==> insts[j].offset != offset
  {
    if insts == [] then None
    else if insts[0].offset == offset then Some(0)
    else
      var k := Find(insts[1..], offset);
      if k.None? then
        assert forall j :: 1 <= j < |insts| ==> insts[j] == insts[1..][j - 1];
        None
      else Some(k.value + 1)
  }

  function Goto(insts: seq<MachineInst>, offset: nat, m: Machine): Control {
    var k := Find(insts, offset);
    if k.Some? then At(k.value, m) else Fault
  }

  // ret ends the program with the value of rax. A conditional jump needs flags that are known.
  function StepInst(insts: seq<MachineInst>, i: MachineInst, m: Machine): Control {
    var next := i.offset + i.length;
    if i.opcode.OpRet? then Returned(m.regs[RAX], m)
    else if i.opcode.OpJmp? then Goto(insts, TargetOf(i), m)
    else if IsConditionalJump(i.opcode) then
      if m.flags.None? then Fault
      else Goto(insts, if Condition(i.opcode, m.flags.value) then TargetOf(i) else next, m)
    else
      var m' := ExecData(i, m);
      if m'.Some? then Goto(insts, next, m'.value) else Fault
  }

  // n instructions, or fewer if the program ends.
  function RunMachine(insts: seq<MachineInst>, c: Control, n: nat): Control
    decreases n
  {
    if n == 0 || !c.At? || c.index >= |insts| then c
    else RunMachine(insts, StepInst(insts, insts[c.index], c.m), n - 1)
  }

  // ---- The programs that are served

  // The width is 64 bits, a shift is by a constant below 64.
  predicate RunsAlike(i: MachineInst) {
    && (FallsThrough(i) ==> i.operandWidth == 64)
    && (i.opcode.OpPop? && |i.operands| > 0 ==> PopOk(i.operands[0]))
    && (i.opcode.OpShl? && |i.operands| == 2 ==> i.operands[1].Imm? && i.operands[1].imm < 64)
  }

  predicate SupportedInst(i: MachineInst) {
    CanTranslate(i) && RunsAlike(i)
  }

  // Besides, jumps go to instructions, and control does not run off the end.
  ghost predicate Runnable(insts: seq<MachineInst>) {
    && Contiguous(insts) && |insts| > 0
    && (forall j {:trigger insts[j]} :: 0 <= j < |insts| ==> RunsAlike(insts[j]))
    && (forall j {:trigger insts[j]} :: 0 <= j < |insts| && IsJump(insts[j].opcode) ==>
         Find(insts, TargetOf(insts[j])).Some?)
    && (insts[|insts| - 1].opcode.OpRet? || insts[|insts| - 1].opcode.OpJmp?)
  }

  ghost predicate Supported(insts: seq<MachineInst>) {
    Runnable(insts) && forall j {:trigger insts[j]} :: 0 <= j < |insts| ==> SupportedInst(insts[j])
  }

  // ---- One instruction

  /** What the code of an instruction does, next to what the machine does. */
  ghost predicate SameEffect(i: MachineInst, addrs: Addresses, o: Outcome, m: Machine)
    requires TargetsKnown(i, addrs)
  {
    if i.opcode.OpRet? then o.Return? && o.word == m.regs[RAX] && Matches(o.st, m)
    else if i.opcode.OpJmp? then o.Jump? && o.dst == addrs[TargetOf(i)] && Matches(o.st, m)
    else if IsConditionalJump(i.opcode) then
      m.flags.Some? ==>
        o.Jump? && o.dst == addrs[if Condition(i.opcode, m.flags.value) then TargetOf(i) else i.offset + i.length]
          && Matches(o.st, m)
    else o.Fell? && ExecData(i, m).Some? && Matches(o.st, ExecData(i, m).value)
  }

  lemma ArithmeticSim(i: MachineInst, id: nat, addrs: Addresses, st: State, m: Machine)
    requires SupportedInst(i) && TargetsKnown(i, addrs) && Matches(st, m) && (i.opcode.OpAdd? || i.opcode.OpShl?)
    ensures SameEffect(i, addrs, ExecInsts(Chunk(i, id, addrs), st), m)
  {
    hide BinaryCode, Get, Set, EvalBinary, ExecInsts;
    var ops := i.operands;
    var op := BinaryOf(i.opcode).value;
    ImmediateValue(ops[1], m);
    var st' := BinarySim(op, ops[0], ops[1], id, st, m);
  }

  lemma ImmediateValue(op: Operand, m: Machine)
    ensures op.Imm? ==> Get(op, m) == op.imm
  {
  }

  lemma MoveSim(i: MachineInst, id: nat, addrs: Addresses, st: State, m: Machine)
    requires SupportedInst(i) && TargetsKnown(i, addrs) && Matches(st, m)
    requires i.opcode.OpMov? || i.opcode.OpInc? || i.opcode.OpPush? || i.opcode.OpPop? || i.opcode.OpCmp?
    ensures SameEffect(i, addrs, ExecInsts(Chunk(i, id, addrs), st), m)
  {
    hide MovCode, PushCode, PopCode, CmpCode, IncCode, Get, Set, EvalBinary, ExecInsts, Write64, Read64, CompareFlags;
    var ops := i.operands;
    if i.opcode.OpMov? {
      var st' := MovSim(ops[0], ops[1], id, st, m);
    } else if i.opcode.OpInc? {
      var st' := IncSim(ops[0].reg, id, st, m);
    } else if i.opcode.OpPush? {
      var st' := PushSim(ops[0], id, st, m);
    } else if i.opcode.OpPop? {
      var st' := PopSim(ops[0], id, st, m);
    } else {
      var st' := CmpSim(ops[0], ops[1], id, st, m);
    }
  }

  lemma RetSim(id: nat, st: State, m: Machine)
    requires Matches(st, m)
    ensures var o := ExecInsts([LoadInst(id, Global(RAX)), RetInst(id + 1, Def(id))], st);
      o.Return? && o.word == m.regs[RAX] && Matches(o.st, m)
  {
    var w := m.regs[RAX];
    assert Lookup(st.cells, Global(RAX)) == Some(w);
    var st1 := st.(env := st.env[id := w]);
    ExecCons(LoadInst(id, Global(RAX)), [RetInst(id + 1, Def(id))], st);
    ExecOne(RetInst(id + 1, Def(id)), st1);
    SameCells(st, st1, m);
  }

  lemma TransferSim(i: MachineInst, id: nat, addrs: Addresses, st: State, m: Machine)
    requires SupportedInst(i) && TargetsKnown(i, addrs) && Matches(st, m) && !FallsThrough(i)
    ensures SameEffect(i, addrs, ExecInsts(Chunk(i, id, addrs), st), m)
  {
    hide JgCode, JgeCode, JleCode, ExecInsts, Condition, Matches;
    if i.opcode.OpRet? {
      RetSim(id, st, m);
    } else if i.opcode.OpJmp? {
      ExecOne(BranchInst(id, addrs[TargetOf(i)]), st);
    } else if m.flags.Some? {
      var t, f := addrs[TargetOf(i)], addrs[i.offset + i.length];
      if i.opcode.OpJg? {
        var st' := JgSim(f, t, id, st, m);
      } else if i.opcode.OpJge? {
        var st' := JgeSim(f, t, id, st, m);
      } else {
        var st' := JleSim(f, t, id, st, m);
      }
    }
  }

  /** The code of every supported instruction does what the instruction does. */
  lemma InstructionSim(i: MachineInst, id: nat, addrs: Addresses, st: State, m: Machine)
    requires SupportedInst(i) && TargetsKnown(i, addrs) && Matches(st, m)
    ensures SameEffect(i, addrs, ExecInsts(Chunk(i, id, addrs), st), m)
  {
    hide ExecInsts, Chunk, Matches, SameEffect;
    if !FallsThrough(i) {
      TransferSim(i, id, addrs, st, m);
    } else if i.opcode.OpAdd? || i.opcode.OpShl? {
      ArithmeticSim(i, id, addrs, st, m);
    } else {
      MoveSim(i, id, addrs, st, m);
    }
  }

  // ---- Whole runs

  // After n blocks the run is in the block of s, entered in state stb, and has come to s in state st.
  ghost predicate Reaches(bs: seq<Block>, st0: State, s: Site, n: nat, stb: State, st: State) {
    && s.block < |bs| && s.pos <= |bs[s.block]|
    && RunFunction(Assembled(bs), st0, n) == Jump(s.block, stb)
    && ExecInsts(bs[s.block][..s.pos], stb) == Fell(st)
  }

  lemma {:induction false} RunOneMore(f: Function, o: Outcome, n: nat)
    requires Run(f, o, n).Jump?
    ensures Run(f, o, n + 1) == StepBlock(f, Run(f, o, n).dst, Run(f, o, n).st)
    decreases n
  {
    if n > 0 {
      RunOneMore(f, StepBlock(f, o.dst, o.st), n - 1);
    }
  }

  lemma CodeRuns(bs: seq<Block>, s: Site, code: Block, stb: State, st: State)
    requires CodeAt(bs, s, code) && ExecInsts(bs[s.block][..s.pos], stb) == Fell(st)
    ensures ExecInsts(bs[s.block][..s.pos + |code|], stb) == ExecInsts(code, st)
  {
    hide ExecInsts;
    var b := bs[s.block];
    assert b[..s.pos + |code|] == b[..s.pos] + code;
    ExecAppend(b[..s.pos], code, stb);
  }

  lemma PrefixDecides(b: Block, end: nat, stb: State)
    requires end <= |b| && !ExecInsts(b[..end], stb).Fell?
    ensures ExecInsts(b, stb) == ExecInsts(b[..end], stb)
  {
    hide ExecInsts;
    assert b == b[..end] + b[end..];
    ExecAppend(b[..end], b[end..], stb);
  }

  // A block that ends in a jump leads to the start of its destination; only the environment may change.
  lemma EntersBlock(bs: seq<Block>, st0: State, b: BlockId, n: nat, stb: State, o: Outcome) returns (st': State)
    requires b < |bs| && RunFunction(Assembled(bs), st0, n) == Jump(b, stb)
    requires ExecInsts(bs[b], stb) == o && o.Jump? && o.dst < |bs|
    ensures forall id :: Reaches(bs, st0, Site(o.dst, 0, id), n + 1, st', st')
    ensures st' == o.st.(env := st'.env)
  {
    hide EnterEnv, ExecInst;
    var f := Assembled(bs);
    RunOneMore(f, Jump(Entry(f), st0.(env := map[])), n);
    st' := o.st.(env := EnterEnv(f.blocks[o.dst], b, o.st.env));
    assert bs[o.dst][..0] == [];
  }

  // From the end of the code at s to t.
  lemma FollowsLink(bs: seq<Block>, st0: State, s: Site, code: Block, t: Site, n: nat, stb: State, st: State)
      returns (n': nat, stb': State, st': State)
    requires CodeAt(bs, s, code) && Links(bs, s, code, t) && Reaches(bs, st0, s, n, stb, st) && t.block < |bs|
    requires ExecInsts(code, st).Fell?
    ensures Reaches(bs, st0, t, n', stb', st') && n <= n' <= n + 1
    ensures var end := ExecInsts(code, st).st; st' == end.(env := st'.env)
  {
    hide ExecInsts, ExecInst, RunFunction, Assembled;
    CodeRuns(bs, s, code, stb, st);
    var end := s.pos + |code|;
    var st1 := ExecInsts(code, st).st;
    if t.block == s.block && t.pos == end {
      n', stb', st' := n, stb, st1;
    } else {
      var b := bs[s.block];
      assert b[..end + 1] == b[..end] + [b[end]];
      ExecAppend(b[..end], [b[end]], stb);
      JumpsTo(b[end], st1);
      PrefixDecides(b, end + 1, stb);
      st' := EntersBlock(bs, st0, s.block, n, stb, Jump(t.block, st1));
      n', stb' := n + 1, st';
      assert Reaches(bs, st0, Site(t.block, 0, t.id), n + 1, st', st');
    }
  }

  lemma JumpsTo(i: Inst, st: State)
    requires i.BranchInst?
    ensures ExecInsts([i], st) == Jump(i.dst, st)
  {
    ExecOne(i, st);
  }

  lemma MatchesAnyEnv(st: State, st': State, m: Machine)
    requires Matches(st, m) && st' == st.(env := st'.env)
    ensures Matches(st', m)
  {
  }

  // What Translated says about one instruction.
  lemma LaidOut(insts: seq<MachineInst>, bs: seq<Block>, addrs: Addresses, sites: seq<Site>, k: nat)
    requires Translated(insts, bs, addrs, sites) && k < |insts| && CanTranslate(insts[k])
    ensures TargetsKnown(insts[k], addrs) && CodeAt(bs, sites[k], Chunk(insts[k], sites[k].id, addrs))
    ensures insts[k].offset in addrs ==> sites[k].block == addrs[insts[k].offset] && sites[k].pos == 0
    ensures k + 1 < |insts| && FallsThrough(insts[k]) ==>
      Links(bs, sites[k], Chunk(insts[k], sites[k].id, addrs), sites[k + 1]) && sites[k + 1].block < |bs|
  {
    hide Chunk, Links, Table, FallsThrough, CanTranslate, TargetsKnown;
    var s := sites[k];
    assert TargetsKnown(insts[k], addrs);
    assert CodeAt(bs, s, CodeOf(insts[k], s.id, addrs));
    if k + 1 < |insts| {
      assert CodeAt(bs, sites[k + 1], CodeOf(insts[k + 1], sites[k + 1].id, addrs));
    }
  }

  lemma Adjacent(insts: seq<MachineInst>, k: nat)
    requires Contiguous(insts) && k + 1 < |insts|
    ensures insts[k + 1].offset == insts[k].offset + insts[k].length
  {
  }

  lemma NextIsFound(insts: seq<MachineInst>, k: nat)
    requires Contiguous(insts) && k + 1 < |insts|
    ensures Find(insts, insts[k].offset + insts[k].length) == Some(k + 1)
  {
    hide Find, Contiguous;
    var next := insts[k].offset + insts[k].length;
    Adjacent(insts, k);
    var j := Find(insts, next);
    if j.value < k + 1 {
      OffsetsRise(insts, j.value, k + 1);
    } else if j.value > k + 1 {
      OffsetsRise(insts, k + 1, j.value);
    }
  }

  // The translation of a supported program.
  ghost predicate Built(insts: seq<MachineInst>, bs: seq<Block>, addrs: Addresses, sites: seq<Site>) {
    Supported(insts) && Translated(insts, bs, addrs, sites)
  }

  lemma TargetSite(insts: seq<MachineInst>, bs: seq<Block>, addrs: Addresses, sites: seq<Site>, offset: nat)
    requires Built(insts, bs, addrs, sites) && offset in addrs && Find(insts, offset).Some?
    ensures var j := Find(insts, offset).value; sites[j] == Site(addrs[offset], 0, sites[j].id) && addrs[offset] < |bs|
  {
    hide Chunk, Links, SupportedInst;
    var j := Find(insts, offset).value;
    assert insts[j].offset == offset;
    var s := sites[j];
  }

  /** One machine instruction, from any state in which the run of the blocks has come to its code. */
  lemma StepSim(insts: seq<MachineInst>, bs: seq<Block>, addrs: Addresses, sites: seq<Site>, st0: State,
                k: nat, m: Machine, n: nat, stb: State, st: State) returns (n': nat, stb': State, st': State)
    requires Built(insts, bs, addrs, sites) && k < |insts| && Reaches(bs, st0, sites[k], n, stb, st) && Matches(st, m)
    ensures n <= n' <= n + 1
    ensures var c := StepInst(insts, insts[k], m);
      match c
      case At(j, m') => j < |insts| && Reaches(bs, st0, sites[j], n', stb', st') && Matches(st', m')
      case Returned(w, m') => RunFunction(Assembled(bs), st0, n') == Return(w, st') && Matches(st', m')
      case Fault => IsConditionalJump(insts[k].opcode) && m.flags.None?
  {
    hide ExecInsts, ExecInst, RunFunction, Assembled, Chunk, Matches, Translated, Condition, ExecData, CodeAt, Links;
    n', stb', st' := n, stb, st;
    BuiltSizes(insts, bs, addrs, sites);
    var i, s := insts[k], sites[k];
    assert SupportedInst(i);
    LaidOut(insts, bs, addrs, sites, k);
    var code := Chunk(i, s.id, addrs);
    InstructionSim(i, s.id, addrs, st, m);
    var o := ExecInsts(code, st);
    if FallsThrough(i) {
      NextIsFound(insts, k);
      n', stb', st' := FollowsLink(bs, st0, s, code, sites[k + 1], n, stb, st);
      MatchesAnyEnv(o.st, st', ExecData(i, m).value);
    } else if i.opcode.OpRet? {
      n', st' := n + 1, o.st;
      ReturnsFrom(bs, st0, s, code, n, stb, st);
    } else if i.opcode.OpJmp? || m.flags.Some? {
      var offset := if i.opcode.OpJmp? || Condition(i.opcode, m.flags.value) then TargetOf(i) else i.offset + i.length;
      if !i.opcode.OpJmp? {
        NextIsFound(insts, k);
      }
      TargetSite(insts, bs, addrs, sites, offset);
      var j := Find(insts, offset).value;
      n', stb', st' := JumpsFrom(bs, st0, s, code, n, stb, st, sites[j]);
      MatchesAnyEnv(o.st, st', m);
    }
  }

  lemma ReturnsFrom(bs: seq<Block>, st0: State, s: Site, code: Block, n: nat, stb: State, st: State)
    requires CodeAt(bs, s, code) && Reaches(bs, st0, s, n, stb, st) && ExecInsts(code, st).Return?
    ensures RunFunction(Assembled(bs), st0, n + 1) == ExecInsts(code, st)
  {
    hide ExecInsts, ExecInst;
    CodeRuns(bs, s, code, stb, st);
    PrefixDecides(bs[s.block], s.pos + |code|, stb);
    var f := Assembled(bs);
    RunOneMore(f, Jump(Entry(f), st0.(env := map[])), n);
  }

  lemma JumpsFrom(bs: seq<Block>, st0: State, s: Site, code: Block, n: nat, stb: State, st: State, t: Site)
      returns (n': nat, stb': State, st': State)
    requires CodeAt(bs, s, code) && Reaches(bs, st0, s, n, stb, st) && ExecInsts(code, st).Jump?
    requires t == Site(ExecInsts(code, st).dst, 0, t.id) && t.block < |bs|
    ensures n' == n + 1 && Reaches(bs, st0, t, n', stb', st')
    ensures var end := ExecInsts(code, st).st; st' == end.(env := st'.env)
  {
    hide ExecInsts, ExecInst, RunFunction, Assembled;
    CodeRuns(bs, s, code, stb, st);
    PrefixDecides(bs[s.block], s.pos + |code|, stb);
    st' := EntersBlock(bs, st0, s.block, n, stb, ExecInsts(code, st));
    n', stb' := n + 1, st';
    assert Reaches(bs, st0, Site(t.block, 0, t.id), n + 1, st', st');
  }

  /** The blocks have come to where the machine is, in a state that matches; a fault of the machine
      is a conditional jump on flags that no cmp has set. */
  ghost predicate Follows(bs: seq<Block>, sites: seq<Site>, st0: State, c: Control) {
    match c
    case At(j, m) =>
      j < |sites| && exists n: nat, stb: State, st: State {:trigger Reaches(bs, st0, sites[j], n, stb, st)} ::
        Reaches(bs, st0, sites[j], n, stb, st) && Matches(st, m)
    case Returned(w, m) =>
      exists n: nat, st: State {:trigger ReturnsAfter(bs, st0, n, w, st)} ::
        ReturnsAfter(bs, st0, n, w, st) && Matches(st, m)
    case Fault => true
  }

  ghost predicate ReturnsAfter(bs: seq<Block>, st0: State, n: nat, w: Word, st: State) {
    |bs| > 0 && RunFunction(Assembled(bs), st0, n) == Return(w, st)
  }

  lemma {:induction false} FollowsRun(insts: seq<MachineInst>, bs: seq<Block>, addrs: Addresses, sites: seq<Site>,
      st0: State, k: nat, m: Machine, n: nat, stb: State, st: State, steps: nat)
    requires Built(insts, bs, addrs, sites) && k < |insts| && Reaches(bs, st0, sites[k], n, stb, st) && Matches(st, m)
    ensures Follows(bs, sites, st0, RunMachine(insts, At(k, m), steps))
    decreases steps
  {
    hide Supported, Translated, StepInst, RunFunction, Assembled, ExecInsts, Matches;
    assert |sites| == |insts| && |bs| > 0 by {
      BuiltSizes(insts, bs, addrs, sites);
    }
    if steps > 0 {
      var c := StepInst(insts, insts[k], m);
      var n', stb', st' := StepSim(insts, bs, addrs, sites, st0, k, m, n, stb, st);
      if c.At? {
        FollowsRun(insts, bs, addrs, sites, st0, c.index, c.m, n', stb', st', steps - 1);
      } else if c.Returned? {
        assert ReturnsAfter(bs, st0, n', c.word, st');
      }
    }
  }

  lemma BuiltSizes(insts: seq<MachineInst>, bs: seq<Block>, addrs: Addresses, sites: seq<Site>)
    requires Built(insts, bs, addrs, sites)
    ensures |sites| == |insts| > 0 && |bs| > 0 && insts[0].offset == 0
    ensures sites[0] == Site(0, 0, sites[0].id)
  {
    hide Chunk, Links, SupportedInst, CodeAt;
    var s := sites[0];
  }

  /** From matching states the blocks follow the machine for any number of instructions. */
  lemma Simulates(insts: seq<MachineInst>, bs: seq<Block>, addrs: Addresses, sites: seq<Site>, st0: State, m: Machine,
      steps: nat)
    requires Built(insts, bs, addrs, sites) && Matches(st0, m)
    ensures Follows(bs, sites, st0, RunMachine(insts, At(0, m), steps))
  {
    hide Built, Matches, Follows;
    BuiltSizes(insts, bs, addrs, sites);
    var st := st0.(env := map[]);
    MatchesAnyEnv(st0, st, m);
    assert bs[0][..0] == [];
    FollowsRun(insts, bs, addrs, sites, st0, 0, m, 0, st, st, steps);
  }

  /** From instruction k on, for some number of instructions: after each of them the run of the blocks has
      come to the code of the next, in the same block or the one after, in a matching state. */
  ghost predicate KeepsUp(insts: seq<MachineInst>, bs: seq<Block>, sites: seq<Site>, st0: State,
                          k: nat, m: Machine, n: nat, stb: State, st: State, steps: nat)
    requires |sites| == |insts| && k < |insts| && |bs| > 0
    decreases steps
  {
    && Reaches(bs, st0, sites[k], n, stb, st) && Matches(st, m)
    && (steps > 0 ==>
          match StepInst(insts, insts[k], m)
          case At(j, m') =>
            j < |insts| && exists n': nat, stb': State, st': State
              {:trigger KeepsUp(insts, bs, sites, st0, j, m', n', stb', st', steps - 1)} ::
              n <= n' <= n + 1 && KeepsUp(insts, bs, sites, st0, j, m', n', stb', st', steps - 1)
          case Returned(w, m') =>
            exists st': State {:trigger Matches(st', m')} ::
              RunFunction(Assembled(bs), st0, n + 1) == Return(w, st') && Matches(st', m')
          case Fault => IsConditionalJump(insts[k].opcode) && m.flags.None?)
  }

  lemma {:induction false} KeepsUpFrom(insts: seq<MachineInst>, bs: seq<Block>, addrs: Addresses, sites: seq<Site>,
      st0: State, k: nat, m: Machine, n: nat, stb: State, st: State, steps: nat)
    requires Built(insts, bs, addrs, sites) && k < |insts| && Reaches(bs, st0, sites[k], n, stb, st) && Matches(st, m)
    requires |sites| == |insts| && |bs| > 0
    ensures KeepsUp(insts, bs, sites, st0, k, m, n, stb, st, steps)
    decreases steps
  {
    hide Supported, Translated, StepInst, RunFunction, Assembled, ExecInsts, Matches;
    if steps > 0 {
      var c := StepInst(insts, insts[k], m);
      var n', stb', st' := StepSim(insts, bs, addrs, sites, st0, k, m, n, stb, st);
      if c.At? {
        KeepsUpFrom(insts, bs, addrs, sites, st0, c.index, c.m, n', stb', st', steps - 1);
      }
    }
  }

  /** From matching states the blocks keep up with the machine, instruction by instruction and in order. */
  lemma SimulatesInOrder(insts: seq<MachineInst>, bs: seq<Block>, addrs: Addresses, sites: seq<Site>, st0: State,
      m: Machine, steps: nat)
    requires Built(insts, bs, addrs, sites) && Matches(st0, m)
    ensures |sites| == |insts| > 0 && |bs| > 0
    ensures KeepsUp(insts, bs, sites, st0, 0, m, 0, st0.(env := map[]), st0.(env := map[]), steps)
  {
    hide Built, Matches;
    BuiltSizes(insts, bs, addrs, sites);
    var st := st0.(env := map[]);
    MatchesAnyEnv(st0, st, m);
    assert bs[0][..0] == [];
    KeepsUpFrom(insts, bs, addrs, sites, st0, 0, m, 0, st, st, steps);
  }

  ghost predicate SimulatesAll(insts: seq<MachineInst>, bs: seq<Block>, sites: seq<Site>) {
    && |sites| == |insts| > 0 && |bs| > 0
    && forall st0: State, m: Machine, steps: nat {:trigger Matches(st0, m), RunMachine(insts, At(0, m), steps)} ::
         Matches(st0, m) ==>
         Follows(bs, sites, st0, RunMachine(insts, At(0, m), steps))
         && KeepsUp(insts, bs, sites, st0, 0, m, 0, st0.(env := map[]), st0.(env := map[]), steps)
  }

  lemma TranslatedRuns(insts: seq<MachineInst>)
    requires Translatable(insts) && Runnable(insts)
    ensures Supported(insts) && |insts| > 0
  {
    hide CanTranslate, Contiguous, RunsAlike;
  }

  /** Lifting a program: it succeeds exactly when every instruction can be translated; every instruction then
      has its code at its site, and the blocks of a supported program keep up with the machine. */
  method Lift(insts: seq<MachineInst>)
      returns (ok: bool, f: Function, ghost bs: seq<Block>, ghost addrs: Addresses, ghost sites: seq<Site>)
    requires Contiguous(insts)
    ensures ok <==> Translatable(insts)
    ensures AllDecoded(insts) ==> (ok <==> NoneRaises(insts))
    ensures ok ==>
        f == Assembled(bs) && Translated(insts, bs, addrs, sites)
          && (Runnable(insts) ==> SimulatesAll(insts, bs, sites))
  {
    hide Laid, Table, Contiguous, CanTranslate, KeepsUp, Follows, AllDecoded, Runnable, RunsAlike;
    var t := new Translator();
    ok, sites := t.Run(insts);
    f, bs, addrs := Assembled(t.blocks), t.blocks, t.addrs;
    if ok && Runnable(insts) {
      TranslatedRuns(insts);
      assert Built(insts, bs, addrs, sites);
      BuiltSizes(insts, bs, addrs, sites);
      forall st0: State, m: Machine, steps: nat | Matches(st0, m)
        ensures Follows(bs, sites, st0, RunMachine(insts, At(0, m), steps))
          && KeepsUp(insts, bs, sites, st0, 0, m, 0, st0.(env := map[]), st0.(env := map[]), steps)
      {
        Simulates(insts, bs, addrs, sites, st0, m, steps);
        SimulatesInOrder(insts, bs, addrs, sites, st0, m, steps);
      }
    }
  }
}

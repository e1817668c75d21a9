/** Stack frames: where values live during a run of the emitted code, and what each group does. */
module StackFrame {
  import opened Words
  import opened X86
  import opened Ir
  import opened MachineRun
  import opened Backend

  // rbp during the run; what the caller left; the slot of every alloc; the alloc that holds
  // each result; the allocs that are variables of the function.
  datatype Frame = Frame(base: Word, savedRbp: Word, returnTo: Word, slots: Slots, homes: map<nat, nat>, vars: set<nat>)

  ghost predicate SlotsOk(slots: Slots) {
    && (forall a {:trigger slots[a]} :: a in slots ==> 8 <= slots[a] && slots[a] % 8 == 0)
    && (forall a, b {:trigger slots[a], slots[b]} :: a in slots && b in slots && a != b ==> slots[a] != slots[b])
  }

  // Every slot is in reach of a 32-bit displacement.
  ghost predicate Fits(slots: Slots) {
    forall a {:trigger slots[a]} :: a in slots ==> slots[a] <= 0x8000_0000
  }

  ghost predicate FrameOk(fr: Frame) {
    && SlotsOk(fr.slots) && fr.vars <= fr.slots.Keys
    && (forall x {:trigger fr.homes[x]} :: x in fr.homes ==> fr.homes[x] in fr.slots && fr.homes[x] !in fr.vars)
    && (forall x, y {:trigger fr.homes[x], fr.homes[y]} :: x in fr.homes && y in fr.homes && x != y ==>
         fr.homes[x] != fr.homes[y])
  }

  function SlotAddr(base: Word, offset: nat): Word {
    Wrap(base - offset)
  }

  function SlotValue(fr: Frame, mem: Memory, a: nat): Word
    requires a in fr.slots
  {
    Read64(mem, SlotAddr(fr.base, fr.slots[a]))
  }

  // The frame pointer, the stack pointer and what the caller left above the frame.
  ghost predicate FrameKept(fr: Frame, m: Machine) {
    && Fits(fr.slots) && m.regs[RBP] == fr.base && m.regs[RSP] == fr.base
    && Read64(m.mem, fr.base) == fr.savedRbp && Read64(m.mem, Wrap(fr.base + 8)) == fr.returnTo
  }

  ghost predicate EnvHeld(fr: Frame, env: Env, mem: Memory) {
    forall x {:trigger env[x]} :: x in env ==>
      x in fr.homes && fr.homes[x] in fr.slots && SlotValue(fr, mem, fr.homes[x]) == env[x]
  }

  ghost predicate CellsHeld(fr: Frame, cells: map<Value, Word>, mem: Memory) {
    forall a {:trigger Alloc(a)} :: Alloc(a) in cells ==>
      a in fr.vars && a in fr.slots && SlotValue(fr, mem, a) == cells[Alloc(a)]
  }

  /** The machine state stands for the state of the function. */
  ghost predicate Related(fr: Frame, st: State, m: Machine) {
    FrameKept(fr, m) && EnvHeld(fr, st.env, m.mem) && CellsHeld(fr, st.cells, m.mem)
  }

  // ---- Slots do not overlap

  lemma OffsetsApart(base: Word, s: int, t: int)
    requires -16 <= s <= 0x8000_0000 && -16 <= t <= 0x8000_0000 && (s + 8 <= t || t + 8 <= s)
    ensures Apart(Wrap(base - s), Wrap(base - t), 8)
  {
    WrapCases(base - s);
    WrapCases(base - t);
  }

  lemma WrapCases(x: int)
    requires -0x1_0000_0000_0000_0000 <= x < 0x2_0000_0000_0000_0000
    ensures Wrap(x) == if x < 0 then x + TWO_TO_64 else if x < TWO_TO_64 then x else x - TWO_TO_64
  {
  }

  lemma SlotsApart(fr: Frame, a: nat, b: nat)
    requires FrameOk(fr) && Fits(fr.slots) && a in fr.slots && b in fr.slots && a != b
    ensures Apart(SlotAddr(fr.base, fr.slots[a]), SlotAddr(fr.base, fr.slots[b]), 8)
  {
    OffsetsApart(fr.base, fr.slots[a], fr.slots[b]);
  }

  /** Every slot lies apart from the saved rbp and from the return address. */
  lemma SlotBelowFrame(fr: Frame, a: nat)
    requires FrameOk(fr) && Fits(fr.slots) && a in fr.slots
    ensures Apart(SlotAddr(fr.base, fr.slots[a]), fr.base, 8)
    ensures Apart(SlotAddr(fr.base, fr.slots[a]), Wrap(fr.base + 8), 8)
  {
    OffsetsApart(fr.base, fr.slots[a], 0);
    OffsetsApart(fr.base, fr.slots[a], -8);
  }

  // ---- Writing a slot

  function WithSlot(fr: Frame, m: Machine, a: nat, v: Word): Machine
    requires a in fr.slots
  {
    m.(mem := Write64(m.mem, SlotAddr(fr.base, fr.slots[a]), v))
  }

  lemma SlotWritten(fr: Frame, mem: Memory, a: nat, v: Word, b: nat)
    requires FrameOk(fr) && Fits(fr.slots) && a in fr.slots && b in fr.slots
    ensures SlotValue(fr, Write64(mem, SlotAddr(fr.base, fr.slots[a]), v), b) == if a == b then v
        else SlotValue(fr, mem, b)
  {
    ReadOverWrite(mem, SlotAddr(fr.base, fr.slots[a]), v, SlotAddr(fr.base, fr.slots[b]));
    if a != b {
      SlotsApart(fr, a, b);
    }
  }

  lemma KeptBySlot(fr: Frame, m: Machine, a: nat, v: Word)
    requires FrameOk(fr) && a in fr.slots && FrameKept(fr, m)
    ensures FrameKept(fr, WithSlot(fr, m, a, v))
  {
    SlotBelowFrame(fr, a);
    ReadOverWrite(m.mem, SlotAddr(fr.base, fr.slots[a]), v, fr.base);
    ReadOverWrite(m.mem, SlotAddr(fr.base, fr.slots[a]), v, Wrap(fr.base + 8));
  }

  // The slot of a result gets a new value.
  lemma WriteHome(fr: Frame, st: State, m: Machine, x: nat, v: Word)
    requires FrameOk(fr) && Related(fr, st, m) && x in fr.homes && fr.homes[x] in fr.slots
    ensures Related(fr, st.(env := st.env[x := v]), WithSlot(fr, m, fr.homes[x], v))
  {
    hide SlotValue, FrameKept;
    KeptBySlot(fr, m, fr.homes[x], v);
    forall b | b in fr.slots
      ensures SlotValue(fr, WithSlot(fr, m, fr.homes[x], v).mem, b) == if fr.homes[x] == b then v
          else SlotValue(fr, m.mem, b)
    {
      SlotWritten(fr, m.mem, fr.homes[x], v, b);
    }
  }

  // The slot of a variable gets a new value.
  lemma WriteVar(fr: Frame, st: State, m: Machine, a: nat, v: Word)
    requires FrameOk(fr) && Related(fr, st, m) && a in fr.vars && a in fr.slots
    ensures Related(fr, st.(cells := st.cells[Alloc(a) := v]), WithSlot(fr, m, a, v))
  {
    hide SlotValue, FrameKept;
    KeptBySlot(fr, m, a, v);
    forall b | b in fr.slots
      ensures SlotValue(fr, WithSlot(fr, m, a, v).mem, b) == if a == b then v else SlotValue(fr, m.mem, b)
    {
      SlotWritten(fr, m.mem, a, v, b);
    }
  }

  // A slot that holds neither a result nor a variable gets a new value.
  lemma WriteSpare(fr: Frame, st: State, m: Machine, a: nat, v: Word)
    requires FrameOk(fr) && Related(fr, st, m) && a in fr.slots && a !in fr.vars
    requires forall x :: x in fr.homes ==> fr.homes[x] != a
    ensures Related(fr, st, WithSlot(fr, m, a, v))
  {
    hide SlotValue, FrameKept;
    KeptBySlot(fr, m, a, v);
    forall b | b in fr.slots
      ensures SlotValue(fr, WithSlot(fr, m, a, v).mem, b) == if a == b then v else SlotValue(fr, m.mem, b)
    {
      SlotWritten(fr, m.mem, a, v, b);
    }
  }

  // No result lives in the slot.
  ghost predicate IsSpare(fr: Frame, a: nat) {
    a in fr.slots && forall x :: x in fr.homes ==> fr.homes[x] != a
  }

  // Slots in which no result lives are as before.
  ghost predicate SparesKept(fr: Frame, m: Machine, m': Machine) {
    forall a {:trigger IsSpare(fr, a)} :: IsSpare(fr, a) && a !in fr.vars ==>
      SlotValue(fr, m'.mem, a) == SlotValue(fr, m.mem, a)
  }

  lemma HomeKeepsSpares(fr: Frame, m: Machine, x: nat, v: Word)
    requires FrameOk(fr) && Fits(fr.slots) && x in fr.homes && fr.homes[x] in fr.slots
    ensures SparesKept(fr, m, WithSlot(fr, m, fr.homes[x], v))
  {
    hide SlotValue;
    forall a | IsSpare(fr, a)
      ensures SlotValue(fr, WithSlot(fr, m, fr.homes[x], v).mem, a) == SlotValue(fr, m.mem, a)
    {
      SlotWritten(fr, m.mem, fr.homes[x], v, a);
    }
  }

  // Writing what a slot holds changes nothing.
  lemma WriteSame(fr: Frame, st: State, m: Machine, a: nat, v: Word)
    requires FrameOk(fr) && Related(fr, st, m) && a in fr.slots && SlotValue(fr, m.mem, a) == v
    ensures Related(fr, st, WithSlot(fr, m, a, v))
  {
    hide SlotValue, FrameKept;
    KeptBySlot(fr, m, a, v);
    forall b | b in fr.slots
      ensures SlotValue(fr, WithSlot(fr, m, a, v).mem, b) == SlotValue(fr, m.mem, b)
    {
      SlotWritten(fr, m.mem, a, v, b);
    }
  }

  // Nothing is claimed about results that are not in the environment.
  lemma FewerResults(fr: Frame, st: State, m: Machine, env: Env)
    requires Related(fr, st, m) && forall x :: x in env ==> x in st.env && st.env[x] == env[x]
    ensures Related(fr, st.(env := env), m)
  {
  }

  // rax, rcx and the flags are scratch.
  lemma ScratchChanged(fr: Frame, st: State, m: Machine, m': Machine)
    requires Related(fr, st, m) && m'.mem == m.mem && m'.regs[RBP] == m.regs[RBP] && m'.regs[RSP] == m.regs[RSP]
    ensures Related(fr, st, m')
  {
  }

  // ---- Operands

  ghost predicate HasPlace(fr: Frame, v: Value) {
    v.Const? || (v.Def? && v.id in fr.homes && fr.homes[v.id] in fr.slots) || (v.Alloc? && v.id in fr.slots)
  }

  function SlotOperand(fr: Frame, a: nat): Operand
    requires a in fr.slots
  {
    MemBaseDisp(RBP, Disp32(fr.slots[a]))
  }

  // The operand that holds a value.
  ghost function Place(fr: Frame, v: Value): Operand
    requires HasPlace(fr, v)
  {
    if v.Const? then Imm(v.word) else SlotOperand(fr, if v.Def? then fr.homes[v.id] else v.id)
  }

  lemma SlotAddressed(fr: Frame, m: Machine, a: nat)
    requires FrameOk(fr) && Fits(fr.slots) && a in fr.slots && m.regs[RBP] == fr.base
    ensures Address(RBP, Disp32(fr.slots[a]), m) == SlotAddr(fr.base, fr.slots[a])
  {
    DispExact(fr.slots[a]);
  }

  /** An operand holds the value of what it stands for. */
  lemma PlaceHolds(fr: Frame, st: State, m: Machine, v: Value)
    requires FrameOk(fr) && Related(fr, st, m) && HasPlace(fr, v)
    ensures Readable(Place(fr, v))
    ensures Eval(v, st.env).Some? ==> Get(Place(fr, v), m) == Eval(v, st.env).value
    ensures v in st.cells && v.Alloc? ==> Get(Place(fr, v), m) == st.cells[v]
  {
    if v.Def? {
      SlotAddressed(fr, m, fr.homes[v.id]);
    } else if v.Alloc? {
      SlotAddressed(fr, m, v.id);
    }
  }

  lemma SlotOperandSet(fr: Frame, m: Machine, a: nat, v: Word)
    requires FrameOk(fr) && Fits(fr.slots) && a in fr.slots && m.regs[RBP] == fr.base
    ensures Writable(SlotOperand(fr, a)) && Set(SlotOperand(fr, a), v, m) == WithSlot(fr, m, a, v)
    ensures Get(SlotOperand(fr, a), m) == SlotValue(fr, m.mem, a)
  {
    SlotAddressed(fr, m, a);
  }
}

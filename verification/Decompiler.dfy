/** From machine code to IR: decoding a stream and translating its instructions. */
module Decompiler {
  import opened Words
  import opened X86
  import opened Ir
  import opened Frontend
  import FrontendSim
  import D = Decoding
  import Decoder
  import E = Encoding

  // The frontend translates the form: it is no call, no xor, and no inc of memory.
  predicate IsLifted(f: E.Form) {
    && !(f.Jump? && f.jumpOp.CallNear?) && !(f.RegRm? && f.regRmOp.XorStore?)
    && !(f.RmOnly? && f.rmOp.IncOne? && !f.rm.InRegister?)
  }

  lemma FormLifted(e: E.Encoding, start: nat)
    requires E.Valid(e)
    ensures var i := E.InstOf(e, start);
      IsLifted(e.form) <==>
        !i.opcode.OpCall? && !i.opcode.OpXor? && (i.opcode.OpInc? ==> |i.operands| == 1 && i.operands[0].Reg?)
  {
    hide E.Valid, E.Bytes, E.ValuePart, E.WidthOf;
  }

  lemma ProgramLifted(ds: seq<D.Decoded>, es: seq<E.Encoding>)
    requires Decoder.Match(ds, es)
    ensures NoneRaises(Decoder.Insts(ds)) <==> forall e :: e in es ==> IsLifted(e.form)
  {
    hide E.Valid, E.Bytes, E.InstOf, IsLifted;
    forall k | 0 <= k < |ds|
      ensures var i := ds[k].inst;
        IsLifted(es[k].form) <==>
          !i.opcode.OpCall? && !i.opcode.OpXor? && (i.opcode.OpInc? ==> |i.operands| == 1 && i.operands[0].Reg?)
    {
      FormLifted(es[k], ds[k].inst.offset);
    }
    var insts := Decoder.Insts(ds);
    if NoneRaises(insts) {
      forall e | e in es
        ensures IsLifted(e.form)
      {
        var k :| 0 <= k < |es| && es[k] == e;
        assert insts[k] in insts;
      }
    }
    if forall e :: e in es ==> IsLifted(e.form) {
      forall i | i in insts
        ensures !i.opcode.OpCall? && !i.opcode.OpXor? && (i.opcode.OpInc? ==> |i.operands| == 1 && i.operands[0].Reg?)
      {
        var k :| 0 <= k < |insts| && insts[k] == i;
        assert es[k] in es;
      }
    }
  }

  // The stream is the bytes of a program that is translated.
  ghost predicate IsLiftable(code: seq<Byte>) {
    exists es: seq<E.Encoding> ::
      Decoder.AllValid(es) && Decoder.Program(es) == code && forall e :: e in es ==> IsLifted(e.form)
  }

  lemma LiftableExactly(code: seq<Byte>)
    ensures var r := Decoder.DecodeFrom(code, 0); IsLiftable(code) <==> r.Ok? && NoneRaises(Decoder.Insts(r.value))
  {
    hide Decoder.DecodeFrom, Decoder.Match, Decoder.Program, Decoder.AllValid, NoneRaises, IsLifted;
    Decoder.ProgramsExactly(code);
    var r := Decoder.DecodeFrom(code, 0);
    if r.Ok? {
      var es: seq<E.Encoding> :| Decoder.AllValid(es) && Decoder.Program(es) == code;
      ProgramLifted(r.value, es);
    }
    if IsLiftable(code) {
      var es: seq<E.Encoding> :|
        Decoder.AllValid(es) && Decoder.Program(es) == code && forall e :: e in es ==> IsLifted(e.form);
      ProgramLifted(r.value, es);
    }
  }

  /** Gives a function exactly for the bytes of programs without calls, xors and incs of memory; everything else fails.
      Every instruction has its code at its site. If control stays within the program and everything is 64 bits wide,
      the blocks keep up with the machine code. */
  method Decompile(code: seq<Byte>)
      returns (f: Option<Function>, ghost bs: seq<Block>, ghost addrs: Addresses, ghost sites: seq<Site>)
    ensures f.Some? <==> IsLiftable(code)
    ensures f.Some? <==> var r := Decoder.DecodeFrom(code, 0); r.Ok? && NoneRaises(Decoder.Insts(r.value))
    ensures f.Some? ==>
      var insts := Decoder.Insts(Decoder.DecodeFrom(code, 0).value);
      f.value == Assembled(bs) && Translated(insts, bs, addrs, sites)
        && (FrontendSim.Runnable(insts) ==> FrontendSim.SimulatesAll(insts, bs, sites))
  {
    hide Decoder.DecodeFrom, Decoder.Tiles, Decoder.Joined, Contiguous, CanTranslate, FrontendSim.Runnable,
      FrontendSim.SimulatesAll, NoneRaises, AllDecoded, IsLiftable, Decoder.Match, Decoder.Program, Decoder.AllValid;
    LiftableExactly(code);
    var r := Decoder.DecodeAll(code);
    bs, addrs, sites := [], map[], [];
    if r.Err? {
      return None, bs, addrs, sites;
    }
    var ok, g;
    ok, g, bs, addrs, sites := FrontendSim.Lift(Decoder.Insts(r.value));
    f := if ok then Some(g) else None;
  }
}

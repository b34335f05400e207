/** The bytes of a thunk, run by the x86 machine, against the interpreter. */
module NativeRefines {
  import opened Words
  import opened Cpu
  import opened Insn
  import opened Codegen
  import opened NativeRun
  import opened NativeBlock
  import opened NativeEncoding
  import X = X86

  /** Native code refines the interpreter. Called on a processor at the block's first
      instruction and outside an IT block, the emitted bytes, whatever follows them in the
      buffer, return to the caller with its registers and stack intact. They return true
      exactly when folding the interpreter over the block meets no fault, and then leave
      R0-R15, APSR, every other processor field but the cycle counter, and memory as the
      fold does; otherwise they return false and the core is halted. Read-only memory is
      untouched either way. */
  lemma NativeRefinesInterpreter(h: X.Host, env: Env, ins: seq<Insn>, s: X.State, junk: seq<u8>)
    requires Called(h, env, s) && Block(ins) && s.guest.itstate == 0 && s.guest.Pc() == ins[0].pc
    ensures Agrees(s, X.Run(h, Flat(BlockCode(env, ins, End)) + junk, s), Interpret(s.guest, s.mem, ins))
  {
    hide Exec, BlockCode, X.Run, Interpret, Block, Called;
    BlockNonEmpty(ins);
    ExecBlock(h, env, ins, End, s);
    BlockFits(env, ins, End);
    RunIsExec(h, BlockCode(env, ins, End), s, junk);
  }

  lemma BlockNonEmpty(ins: seq<Insn>)
    requires Block(ins)
    ensures |ins| > 0
  {
  }
}

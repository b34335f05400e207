/** The block cache with real thunks: the bytes the code generator emits for a block, run
    by the x86 machine, over the interpreter itself. */
module Thunks {
  import opened Words
  import opened Cpu
  import opened Insn
  import opened Nvic
  import opened RunLoop
  import opened Machine
  import opened Translator
  import opened Translated
  import Jit
  import Arbitration
  import Executor
  import Codegen
  import NativeSteps
  import NativeMulti
  import NativeForms
  import NativeBlock
  import NativeRefines
  import Emitter
  import Reservation
  import X = X86
  import Bus

  type Decoder = (u32, Option<u32>, Option<u32>) -> Insn

  /** Where thunks run: the host, what the generator compiled against, the bytes of the code
      buffer, and the caller's registers, flags and stack, which may be anything. */
  datatype Caller = Caller(h: X.Host, env: Codegen.Env, x: X.RegFile, fl: X.Flags, stack: seq<u64>, buffer: seq<u8>)

  /** Processor in rcx, bus in rdx. */
  function Enter(t: Caller, b: Board): X.State {
    X.State(t.x.(rcx := t.h.cpu, rdx := t.h.bus), t.fl, t.stack, b.c, b.m, 0, X.Running)
  }

  /** Calling a thunk: the machine runs the bytes of the buffer from its first one on. */
  function Call(t: Caller, start: nat, b: Board): (Board, bool)
    requires start <= |t.buffer|
  {
    var s := X.Run(t.h, t.buffer[start..], Enter(t, b));
    (b.(c := s.guest, m := s.mem), X.GetByte(s.x, X.AL) == 1)
  }

  /** The generator accepts a block instruction by instruction, as long as there is room. */
  predicate Accepts(ins: seq<Insn>) { |ins| > 0 && AllAccepted(ins) }

  predicate AllAccepted(ins: seq<Insn>) {
    forall i :: i in ins ==> Codegen.Supports(i.op) && Codegen.NativeOk(i)
  }

  /** Where the thunk of a block starts; none when the generator refused it. */
  type Table = Jit.Block -> Option<nat>

  function Compiled(t: Caller, table: Table): Jit.Native {
    (bk: Jit.Block) =>
      if Accepts(bk.ins) && table(bk).Some? && table(bk).value <= |t.buffer|
      then Some((b: Board) => Call(t, table(bk).value, b)) else None
  }

  /** Every thunk in the table has its whole code in the buffer. */
  ghost predicate Stocked(buffer: seq<u8>, env: Codegen.Env, table: Table) {
    forall bk: Jit.Block :: Accepts(bk.ins) && table(bk).Some? ==>
      Emitter.Placed(buffer, env, bk.ins, table(bk).value)
  }

  function Recorded(table: Table, bk: Jit.Block, start: Option<nat>): Table {
    (x: Jit.Block) => if x == bk then start else table(x)
  }

  /** Compiling one more block: the table stays good exactly when the generator refused the block
      or its bytes all went into the buffer. */
  method Stock(cg: Emitter.CodeBuffer, env: Codegen.Env, bk: Jit.Block, table: Table)
      returns (start: Option<nat>, ghost table': Table)
    requires cg.Valid() && |bk.ins| > 0 && Stocked(cg.bytes[..cg.used], env, table)
    modifies cg, cg.bytes
    ensures cg.Valid() && cg.bytes == old(cg.bytes) && table' == Recorded(table, bk, start)
    ensures Stocked(cg.bytes[..cg.used], env, table') <==>
      start.Some? ==> cg.used == start.value + |Codegen.Flat(Codegen.BlockCode(env, bk.ins, Codegen.End))|
  {
    hide Codegen.Flat, Codegen.BlockCode, Codegen.Supports, Codegen.NativeOk, Emitter.Placed, Reservation.NoMulti,
         Reservation.OpsBytes;
    ghost var was := cg.bytes[..cg.used];
    start := cg.CodegenEmit(env, bk.ins);
    table' := Recorded(table, bk, start);
    forall x: Jit.Block | x != bk && Accepts(x.ins) && table(x).Some?
      ensures Emitter.Placed(cg.bytes[..cg.used], env, x.ins, table(x).value)
    {
      Emitter.PlacedKept(was, cg.bytes[..cg.used], env, x.ins, table(x).value);
    }
  }

  /** The host serves this memory, and the generator compiled against it. */
  ghost predicate Hosted(t: Caller, m: Bus.Memory) {
    NativeSteps.HostOk(t.h, m) && NativeMulti.EnvFits(t.h, t.env, m)
  }

  lemma HostedKept(t: Caller, m: Bus.Memory, m': Bus.Memory)
    requires Hosted(t, m) && Bus.RomKept(m, m')
    ensures Hosted(t, m')
  {
    hide NativeMulti.SramOk;
    if t.env.sram.Some? {
      NativeMulti.SramKept(t.h, m, m', t.env.sram.value);
    }
  }

  /* A block the generator accepts, folded and run sequentially. */

  lemma TransferAwake(c: CpuState, m: Bus.Memory, i: Insn, pc: u32)
    requires REG_PC !in i.regs || !i.op.Pop?
    ensures Awake(c, Executor.Transfer(c, m, i, pc))
  {
    hide Executor.LoadRegs, Executor.StoreRegs, Count, Add32, Sub32, ExcReturn;
  }

  lemma PerformAwake(c: CpuState, m: Bus.Memory, i: Insn, pc: u32)
    requires Codegen.Supports(i.op) && Codegen.NativeOk(i)
    ensures Awake(c, Executor.Perform(c, m, i, pc))
  {
    hide Executor.Transfer, Executor.LoadStore, Executor.DataProcessing, Executor.Msr, Executor.Mrs, ExcEnter,
         ExcReturn, RaiseUndefined, Executor.CondPass, Add32, Even;
    DataAwake(c, i);
    if Paired(i.op) {
      PairedRegular(c, m, i, pc);
    } else {
      LoadStoreRegular(c, m, i, pc);
    }
    TransferAwake(c, m, i, pc);
  }

  /** One accepted instruction on the board is one on the processor, and it halts only by failing. */
  lemma ExecAccepted(b: Board, i: Insn)
    requires Codegen.Supports(i.op) && Codegen.NativeOk(i) && b.c.itstate == 0
    ensures var o := Executor.Execute(b.c, b.m, i);
      Exec(b, i) == (b.(c := o.c, m := o.m), o.ok) && (o.ok ==> Unmoved(b.c, o.c))
  {
    hide Executor.Perform, Executor.CondPass, Executor.LoadRegs;
    PerformAwake(b.c, b.m, i, Add32(b.c.Pc(), i.size));
  }

  /** Folding the interpreter over decoded instructions the generator accepts is running
      them one after the other from memory; a fault in either halts the core. */
  lemma {:induction false} FoldIsSequential(decoder: Decoder, b: Board, ins: seq<Insn>)
    requires var env := Interpreter(decoder); Jit.Plain(env, b.m) && Jit.Decodes(env, b.m, b.c.Pc(), ins)
    requires AllAccepted(ins) && b.c.itstate == 0 && !b.c.halted
    ensures var o, ref := NativeBlock.Interpret(b.c, b.m, ins), Jit.Sequential(Interpreter(decoder), b, |ins|);
      if o.ok then ref == (b.(c := o.c, m := o.m), |ins|) && !o.c.halted else ref.0.c.halted
    decreases |ins|
  {
    hide Exec, Executor.Execute, Jit.Plain, Decode, InRom, Bus.RomKept, Jit.Straight;
    if |ins| > 0 {
      var env, i, o := Interpreter(decoder), ins[0], Executor.Execute(b.c, b.m, ins[0]);
      ExecAccepted(b, i);
      ExecuteSound(b.c, b.m, i);
      if o.ok {
        var b' := b.(c := o.c, m := o.m);
        if |ins| > 1 {
          GoesToNext(env, b, ins);
        }
        Jit.DecodesKept(env, b.m, b'.m, Add32(b.c.Pc(), i.size), ins[1..]);
        Jit.PlainKept(env, b.m, b'.m);
        FoldIsSequential(decoder, b', ins[1..]);
      }
    }
  }

  lemma GoesToNext(env: Env, b: Board, ins: seq<Insn>)
    requires Jit.Plain(env, b.m) && Jit.Decodes(env, b.m, b.c.Pc(), ins) && |ins| > 1 && env.exec(b, ins[0]).1
    ensures env.exec(b, ins[0]).0.c.Pc() == Add32(b.c.Pc(), ins[0].size)
  {
    hide Decode, InRom, Bus.RomKept;
    Jit.DecodesAt(env, b.m, b.c.Pc(), ins, 0);
    Jit.GoesOn(env, b, ins[0]);
  }

  /* The thunks keep the promises the cache asks for. */

  /** Read-only code whose accepted instructions all have a form the emitters translate
      correctly: what the generator's acceptance test leaves out. */
  ghost predicate NativeCode(env: Env, m: Bus.Memory) {
    forall pc: u32 :: var i := Decode(env, m, pc);
      InRom(m, pc) && Codegen.Supports(i.op) && Codegen.NativeOk(i) ==> NativeForms.NativeForm(i)
  }

  /** A decoded block the generator accepts is one its theorem speaks of. */
  lemma DecodedBlock(env: Env, m: Bus.Memory, pc: u32, ins: seq<Insn>)
    requires NativeCode(env, m) && Jit.Addressed(env) && Jit.Decodes(env, m, pc, ins) && Accepts(ins)
    ensures NativeBlock.Block(ins) && ins[0].pc == pc
  {
    hide Decode, InRom, NativeForms.NativeForm, Codegen.Supports, Codegen.NativeOk;
    Jit.DecodesAt(env, m, pc, ins, 0);
    forall j | 0 <= j < |ins|
      ensures NativeForms.NativeForm(ins[j])
    {
      Jit.DecodesAt(env, m, pc, ins, j);
      assert ins[j] in ins;
    }
    forall j | 0 <= j < |ins| - 1
      ensures !Codegen.IsBranch(ins[j].op) && ins[j + 1].pc == Add32(ins[j].pc, ins[j].size)
    {
      Jit.DecodesAt(env, m, pc, ins, j);
    }
  }

  lemma NativeCodeKept(env: Env, m: Bus.Memory, m': Bus.Memory)
    requires Bus.RomKept(m, m') && NativeCode(env, m)
    ensures NativeCode(env, m')
  {
    hide Decode, InRom, NativeForms.NativeForm, Codegen.Supports, Codegen.NativeOk, Bus.RomKept;
    Jit.RomKeptBack(m, m');
    forall pc: u32 | InRom(m', pc)
      ensures InRom(m, pc) && Decode(env, m, pc) == Decode(env, m', pc)
    {
      DecodeKept(env, m', m, pc);
    }
  }

  /** Calling a thunk does what folding the interpreter over its block does. */
  lemma CallAgrees(t: Caller, ins: seq<Insn>, start: nat, b: Board)
    requires Hosted(t, b.m) && NativeBlock.Block(ins) && b.c.itstate == 0 && b.c.Pc() == ins[0].pc
    requires Emitter.Placed(t.buffer, t.env, ins, start)
    ensures var r, o := Call(t, start, b), NativeBlock.Interpret(b.c, b.m, ins);
      r.1 == o.ok && Bus.RomKept(b.m, r.0.m)
      && if o.ok then r.0 == b.(c := o.c.(cycles := b.c.cycles), m := o.m) else r.0.c.halted
  {
    hide X.Run, NativeBlock.Interpret, Codegen.BlockCode, NativeSteps.HostOk, NativeMulti.EnvFits, Bus.RomKept,
         NativeBlock.AllNative, NativeBlock.Chain, X.GetByte, Codegen.Flat;
    var code := Codegen.Flat(Codegen.BlockCode(t.env, ins, Codegen.End));
    var junk := t.buffer[start + |code|..];
    assert t.buffer[start..] == code + junk;
    NativeRefines.NativeRefinesInterpreter(t.h, t.env, ins, Enter(t, b), junk);
  }

  /** A thunk entered at its block's start agrees with the sequential run of the block. */
  lemma ThunkFaithful(decoder: Decoder, t: Caller, table: Table, m: Bus.Memory, b: Board, bk: Jit.Block)
    requires Hosted(t, m) && NativeCode(Interpreter(decoder), m) && Bus.RomKept(m, b.m)
    requires Stocked(t.buffer, t.env, table) && Jit.Entered(Interpreter(decoder), Compiled(t, table), b, bk)
    ensures table(bk).Some? && table(bk).value <= |t.buffer|
    ensures var r := Call(t, table(bk).value, b);
      && Compiled(t, table)(bk).value(b) == r
      && Bus.RomKept(b.m, r.0.m) && Jit.ThunkAgrees(Interpreter(decoder), b, bk, r)
  {
    hide Call, Hosted, NativeCode, Bus.RomKept, NativeBlock.Block, NativeBlock.Interpret, Jit.Plain, Jit.Decodes,
         Jit.EndOf, Jit.Sequential, AllAccepted, Emitter.Placed;
    var env := Interpreter(decoder);
    HostedKept(t, m, b.m);
    NativeCodeKept(env, m, b.m);
    PlainAddressed(env, b.m);
    DecodedBlock(env, b.m, bk.pcStart, bk.ins);
    CallAgrees(t, bk.ins, table(bk).value, b);
    FoldIsSequential(decoder, b, bk.ins);
  }

  lemma PlainAddressed(env: Env, m: Bus.Memory)
    requires Jit.Plain(env, m)
    ensures Jit.Addressed(env)
  {
  }

  /** Compiled thunks are faithful to the interpreter and keep read-only memory. */
  lemma CompiledFaithful(decoder: Decoder, t: Caller, table: Table, m: Bus.Memory)
    requires Hosted(t, m) && NativeCode(Interpreter(decoder), m) && Stocked(t.buffer, t.env, table)
    ensures Jit.Faithful(Interpreter(decoder), Compiled(t, table), m)
    ensures Jit.ThunksKeepRom(Interpreter(decoder), Compiled(t, table), m)
  {
    hide Call, Hosted, NativeCode, Bus.RomKept, Jit.Transparent, Jit.ThunkAgrees, Compiled, Stocked;
    forall b: Board, bk: Jit.Block |
      Bus.RomKept(m, b.m) && Jit.Entered(Interpreter(decoder), Compiled(t, table), b, bk)
      ensures Bus.RomKept(b.m, Compiled(t, table)(bk).value(b).0.m)
      ensures Jit.ThunkAgrees(Interpreter(decoder), b, bk, Compiled(t, table)(bk).value(b))
    {
      ThunkFaithful(decoder, t, table, m, b, bk);
    }
  }

  /** Code the cache and the generator are right about: the decoder records addresses, and
      read-only memory holds no hidden jump and no accepted instruction of another form. */
  ghost predicate Firmware(decoder: Decoder, m: Bus.Memory) {
    && Jit.Addressed(Interpreter(decoder)) && NativeCode(Interpreter(decoder), m)
    && forall pc: u32 :: var i := Decode(Interpreter(decoder), m, pc);
         InRom(m, pc) && !Jit.IsTerminator(i.op) ==> !HiddenJump(i)
  }

  lemma FirmwarePlain(decoder: Decoder, m: Bus.Memory)
    requires Firmware(decoder, m)
    ensures Jit.Plain(Interpreter(decoder), m) && Jit.CycleBlind(Interpreter(decoder))
  {
    hide Decode, InRom, HiddenJump, Lawful, Jit.CycleBlind, Jit.Straight;
    InterpreterLawful(decoder);
    InterpreterBlind(decoder);
    var env := Interpreter(decoder);
    forall pc: u32 | InRom(m, pc) && !Jit.IsTerminator(Decode(env, m, pc).op)
      ensures Jit.Straight(env, Decode(env, m, pc))
    {
      StraightInterpreter(decoder, Decode(env, m, pc));
    }
  }

  /** Everything the run loop relies on holds of the interpreter and its compiled thunks. */
  lemma FirmwareGrounded(decoder: Decoder, t: Caller, table: Table, inv: Board -> bool, m: Bus.Memory)
    requires Stocked(t.buffer, t.env, table)
    requires Firmware(decoder, m) && Hosted(t, m) && Firm(Interpreter(decoder), Compiled(t, table), inv)
    ensures Grounded(false, Interpreter(decoder), Compiled(t, table), inv, m)
  {
    hide Firmware, Hosted, Jit.Plain, Jit.CycleBlind, Jit.Faithful, Jit.ThunksKeepRom, NativeCode, Compiled,
         Interpreter, Firm, HaltSticks, Stocked;
    FirmwarePlain(decoder, m);
    FirmwareNative(decoder, m);
    CompiledFaithful(decoder, t, table, m);
    InterpreterHaltSticks(decoder);
  }

  /** The emulator as it runs firmware: the loop, the block cache, and the bytes the generator
      emitted, against decoding and executing one instruction after another from memory.
      Whatever mix of emitted code, decoded blocks and single instructions runs, the board it
      leaves and the steps it counts are those of sequential batches within the interrupt
      budget, cycle counter excepted; or the core has halted in both. */
  method RunFirmware(r: Runner, j: Jit.Cache, decoder: Decoder, t: Caller, table: Table,
      ghost inv: Board -> bool,
    maxSteps: nat) returns (count: nat, ghost ns: seq<nat>)
    requires r.cache.Length == DCACHE_SIZE && r.env == j.env == Interpreter(decoder) && j.native == Compiled(t, table)
    requires Firmware(decoder, r.board.m) && Hosted(t, r.board.m) && j.Coherent(r.board.m)
    requires Firm(Interpreter(decoder), Compiled(t, table), inv) && inv(r.board) && Stocked(t.buffer, t.env, table)
    modifies r, r.cache, j, j.blocks, j.lookupPc, j.lookupIdx, j.counters
    ensures count <= maxSteps && (count < maxSteps ==> r.board.c.halted)
    ensures
      || OnTrack(false, Interpreter(decoder), old(r.board), ns, maxSteps, r.board, count)
      || Ended(false, Interpreter(decoder), old(r.board), ns, maxSteps, r.board, count)
  {
    hide Firmware, Hosted, Grounded, Firm, OnTrack, Ended, Compiled, Interpreter, Lawful, Jit.GoodBlock, Stocked;
    FirmwareGrounded(decoder, t, table, inv, r.board.m);
    InterpreterLawful(decoder);
    count, ns := RunFull(r, j, false, inv, maxSteps);
  }

  lemma FirmwareNative(decoder: Decoder, m: Bus.Memory)
    requires Firmware(decoder, m)
    ensures NativeCode(Interpreter(decoder), m)
  {
    hide NativeCode;
  }
}

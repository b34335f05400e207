/** Each supported instruction, in every form the generator accepts: what its emitted code
    leaves in the guest and in memory. */
module NativeOps {
  import opened Words
  import opened Cpu
  import opened Insn
  import opened Nvic
  import opened Asm
  import opened Codegen
  import opened NativeRun
  import opened NativeSteps
  import opened NativeFlags
  import opened NativeMemory
  import opened NativeData
  import opened NativeAccess
  import opened NativeMulti
  import opened NativeBranch
  import X = X86
  import Bus
  import Executor

  /* What is left. */

  function WithRegs(g: CpuState, o: Option<(Regs, Bus.Memory)>): Option<(CpuState, Bus.Memory)> {
    match o case None => None case Some((r, m)) => Some((g.(r := r), m))
  }

  /** The transfer of a PUSH, POP, LDM or STM. */
  function MultiOf(i: Insn): Multi {
    if i.op.Push? then PushMulti(i) else if i.op.Pop? then PopMulti(i) else LdmStmMulti(i)
  }

  /** PUSH moves the stack pointer before it stores. */
  function Prepared(i: Insn, r: Regs): Regs {
    if i.op.Push? then r[REG_SP := Sub32(r[REG_SP], PushMulti(i).Len())] else r
  }

  /** The PC a branch stores: condition 14 always branches, a higher one never. */
  function StoredPc(apsr: u32, i: Insn): u32 {
    var target := Add32(Add32(i.pc, 4), i.imm);
    if i.op.BUncond? then target
    else if i.op.T32Bl? then Even(target)
    else if i.cond == 14 || (i.cond < 14 && Executor.CondPass(apsr, i.cond)) then target
    else Add32(i.pc, i.size)
  }

  /** The link register holds the address of the next instruction. */
  function Linked(r: Regs, i: Insn): Regs {
    if i.op.T32Bl? then r[REG_LR := SetThumb(Add32(i.pc, i.size))] else r
  }

  /** Guest and memory after the emitted code; None when a bus access faults. */
  function Emitted(i: Insn, g: CpuState, m: Bus.Memory): Option<(CpuState, Bus.Memory)> {
    if IsData(i.op) then Some((Shaped(g, ShapeOf(i), i.rd), m))
    else if IsMemory(i.op) then WithRegs(g, PerformAll(g.r, m, AccessesOf(i)))
    else if IsMulti(i.op) then WithRegs(g, SlowTransferred(MultiOf(i), Prepared(i, g.r), m))
    else if IsBranch(i.op) then Some((g.(r := Linked(g.r, i)[REG_PC := StoredPc(g.apsr, i)]), m))
    else Some((g, m))
  }

  /** Machine states before and after: the given effect with the fault register untouched,
      or the fault register set. */
  ghost predicate Effected(s: X.State, s': X.State, e: Option<(CpuState, Bus.Memory)>) {
    && Bus.RomKept(s.mem, s'.mem)
    && Quiet(s, s', if e.Some? then s.x.rbx else 1, s'.guest, s'.mem)
    && s'.guest.itstate == s.guest.itstate && s'.guest.cycles == s.guest.cycles
    && (e.Some? ==> s'.guest == e.value.0 && s'.mem == e.value.1)
  }

  lemma LeftIsEffected(s: X.State, s': X.State, o: Option<(Regs, Bus.Memory)>)
    requires Left(s, s', o)
    ensures Effected(s, s', WithRegs(s.guest, o))
  {
  }

  lemma BranchOp(op: Op)
    requires IsBranch(op)
    ensures !IsData(op) && !IsMemory(op) && !IsMulti(op) && !op.Push? && !op.Pop?
  {
  }

  lemma MultiOp(op: Op)
    requires IsMulti(op)
    ensures !IsData(op) && !IsMemory(op)
  {
  }

  /* Data processing. */

  lemma ShapedKeeps(g: CpuState, sh: Shape, rd: Reg)
    ensures Shaped(g, sh, rd).itstate == g.itstate && Shaped(g, sh, rd).cycles == g.cycles
  {
    hide Updated, Result;
  }

  lemma RunData(h: X.Host, env: Env, i: Insn, k: Code, s: X.State) returns (s': X.State)
    requires Ready(h, s) && IsData(i.op)
    ensures Exec(h, OpCode(env, i, k), s) == Exec(h, k, s')
    ensures Effected(s, s', Emitted(i, s.guest, s.mem))
  {
    hide Exec, DataCode, ShapeCode, ShapeOf, Shaped, HostOk, IsMemory, IsMulti;
    Bus.SelfKept(s.mem);
    DataCodeShape(i, k);
    ShapesOk(i);
    s' := RunShape(h, ShapeOf(i), i.rd, k, s);
    ShapedKeeps(s.guest, ShapeOf(i), i.rd);
  }

  /* Loads and stores. */

  lemma RunMemory(h: X.Host, env: Env, i: Insn, k: Code, s: X.State) returns (s': X.State)
    requires Ready(h, s) && EnvOk(h, env) && s.x.rbx < 2 && IsMemory(i.op)
    ensures Exec(h, OpCode(env, i, k), s) == Exec(h, k, s')
    ensures Effected(s, s', Emitted(i, s.guest, s.mem))
  {
    hide Exec, MemoryCode, AccessesOf, AccessesCode, PerformAll, HostOk, Left, Effected;
    MemoryCodeShape(env, i, k);
    s' := RunAccesses(h, env, AccessesOf(i), k, s);
    LeftIsEffected(s, s', PerformAll(s.guest.r, s.mem, AccessesOf(i)));
  }

  /* Multiple transfers. */

  /** sp - 4n stored before the transfer. */
  lemma RunPushStart(h: X.Host, t: Multi, k: Code, s: X.State) returns (s': X.State)
    requires Ready(h, s) && t.base == REG_SP && !t.down
    ensures Exec(h, R(LdEax, REG_SP, I(SubEax, t.Len(), R(StEax, REG_SP, k))), s) == Exec(h, k, s')
    ensures var sp := Sub32(s.guest.r[REG_SP], t.Len());
      Quiet(s, s', s.x.rbx, s.guest.(r := s.guest.r[REG_SP := sp]), s.mem) && s'.x.rax == sp &&
        s'.x.rax == Start(t, s'.guest.r)
  {
    hide Exec, Meaning, HostOk, X.AluFlags, X.Wrap32, And32, Or32, Xor32, Add32, Count;
    DownMeans(t.Len());
    var st := R(StEax, REG_SP, k);
    var s1 := LoadEax(h, REG_SP, I(SubEax, t.Len(), st), s);
    var s2 := DoAluImm(h, Imm32(SubEax, t.Len()), X.SUB, X.RAX, t.Len(), st, s1);
    s' := StoreEax(h, REG_SP, k, s2);
  }

  lemma LeftFrom(s: X.State, s1: X.State, s': X.State, o: Option<(Regs, Bus.Memory)>)
    requires Quiet(s, s1, s.x.rbx, s1.guest, s.mem) && s1.guest == s.guest.(r := s1.guest.r)
    requires Left(s1, s', o)
    ensures Left(s, s', o)
  {
  }

  lemma {:induction false} NothingListed(t: Multi, k: nat)
    requires k <= 16 && Count(t.regs, k) == 0
    ensures forall j: Reg :: j in t.regs ==> j >= k
    decreases k
  {
    if k != 0 {
      NothingListed(t, k - 1);
    }
  }

  /** An empty list transfers nothing. */
  lemma EmptyTransfer(t: Multi, q: Regs, m: Bus.Memory)
    requires t.Words() == 0
    ensures SlowTransferred(t, q, m) == Some((q, m))
  {
    NothingListed(t, 16);
    NoneReloaded(t, q, m, 0, 0);
    assert q[t.base := q[t.base]] == q;
  }

  /** No bytes to make room for. */
  lemma SameSp(r: Regs, len: u32)
    requires len == 0
    ensures r[REG_SP := Sub32(r[REG_SP], len)] == r
  {
    assert r[REG_SP := r[REG_SP]] == r;
  }

  lemma RunPush(h: X.Host, env: Env, i: Insn, k: Code, s: X.State) returns (s': X.State)
    requires Ready(h, s) && EnvFits(h, env, s.mem) && s.x.rbx < 2 && i.op.Push?
    ensures Exec(h, PushCode(env, PushMulti(i), k), s) == Exec(h, k, s')
    ensures Left(s, s', SlowTransferred(PushMulti(i), Prepared(i, s.guest.r), s.mem))
  {
    hide Exec, HostOk, MultiCode, Transferred, SlowTransferred, Start, Count, SramOk, Left;
    var t := PushMulti(i);
    var q := Prepared(i, s.guest.r);
    var o := SlowTransferred(t, q, s.mem);
    if t.Words() == 0 {
      s' := s;
      SameSp(s.guest.r, t.Len());
      EmptyTransfer(t, q, s.mem);
      SelfLeft(s);
    } else {
      var s1 := RunPushStart(h, t, MultiCode(env, t, k), s);
      s' := RunMulti(h, env, t, k, s1);
      LeftFrom(s, s1, s', o);
    }
  }

  lemma SelfLeft(s: X.State)
    ensures Left(s, s, Some((s.guest.r, s.mem)))
  {
  }

  /** POP, LDM and STM enter the transfer with the lowest address in eax. */
  lemma RunLdmStm(h: X.Host, env: Env, t: Multi, k: Code, s: X.State) returns (s': X.State)
    requires Ready(h, s) && EnvFits(h, env, s.mem) && s.x.rbx < 2 && (BaseSafe(t) || env.sram.None?)
    ensures Exec(h, LdmStmCode(env, t, k), s) == Exec(h, k, s')
    ensures Left(s, s', SlowTransferred(t, s.guest.r, s.mem))
  {
    hide Exec, HostOk, MultiCode, Transferred, SlowTransferred, Start, Count, SramOk, Down, Left, BaseSafe;
    if t.Words() == 0 {
      s' := s;
      EmptyTransfer(t, s.guest.r, s.mem);
      SelfLeft(s);
    } else {
      var s1 := RunStart(h, t, MultiCode(env, t, k), s);
      s' := RunMulti(h, env, t, k, s1);
      LeftFrom(s, s1, s', SlowTransferred(t, s.guest.r, s.mem));
    }
  }

  lemma RunMultiple(h: X.Host, env: Env, i: Insn, k: Code, s: X.State) returns (s': X.State)
    requires Ready(h, s) && EnvFits(h, env, s.mem) && s.x.rbx < 2 && IsMulti(i.op)
    requires BaseSafe(MultiOf(i)) || env.sram.None?
    ensures Exec(h, OpCode(env, i, k), s) == Exec(h, k, s')
    ensures Effected(s, s', Emitted(i, s.guest, s.mem))
  {
    hide Exec, HostOk, PushCode, LdmStmCode, SlowTransferred, Count, SramOk, Left, BaseSafe, Effected, IsData, IsMemory,
         DataCode, MemoryCode, AccessesOf, ShapeOf, Shaped;
    MultiOp(i.op);
    if i.op.Push? {
      s' := RunPush(h, env, i, k, s);
    } else {
      s' := RunLdmStm(h, env, MultiOf(i), k, s);
    }
    LeftIsEffected(s, s', SlowTransferred(MultiOf(i), Prepared(i, s.guest.r), s.mem));
  }

  /* Branches. */

  lemma BlMeans(v: u32)
    ensures Meaning(Imm32(MovEax, v)) == X.MovRI(X.RAX, v)
  {
  }

  lemma RunBranch(h: X.Host, i: Insn, k: Code, s: X.State) returns (s': X.State)
    requires Ready(h, s) && IsBranch(i.op)
    ensures Exec(h, BranchCode(i, k), s) == Exec(h, k, s')
    ensures Quiet(s, s', s.x.rbx, s.guest.(r := Linked(s.guest.r, i)[REG_PC := StoredPc(s.guest.apsr, i)]), s.mem)
  {
    hide Exec, Meaning, HostOk, CondTest, Executor.CondPass, X.Wrap32;
    var target := Add32(Add32(i.pc, 4), i.imm);
    if i.op.BUncond? {
      s' := DoStPc(h, target, k, s);
    } else if i.op.T32Bl? {
      var lr := SetThumb(Add32(i.pc, i.size));
      BlMeans(lr);
      var k2 := Then(StPc(Even(target)), k);
      var s1 := DoMovImm(h, Imm32(MovEax, lr), X.RAX, lr, R(StEax, REG_LR, k2), s);
      var s2 := StoreEax(h, REG_LR, k2, s1);
      s' := DoStPc(h, Even(target), k, s2);
    } else if i.cond < 14 {
      s' := RunBCond(h, i, k, s);
    } else {
      s' := DoStPc(h, StoredPc(s.guest.apsr, i), k, s);
    }
  }

  lemma RunJump(h: X.Host, env: Env, i: Insn, k: Code, s: X.State) returns (s': X.State)
    requires Ready(h, s) && IsBranch(i.op)
    ensures Exec(h, OpCode(env, i, k), s) == Exec(h, k, s')
    ensures Effected(s, s', Emitted(i, s.guest, s.mem))
  {
    hide Exec, HostOk, BranchCode, StoredPc, Linked, IsData, IsMemory, IsMulti, IsBranch, DataCode, MemoryCode,
         AccessesOf, ShapeOf, Shaped, Bus.RomKept;
    BranchOp(i.op);
    Bus.SelfKept(s.mem);
    s' := RunBranch(h, i, k, s);
  }

  /** One supported instruction, in any form the generator takes: its emitted code leaves what
      `Emitted` says, or sets the fault register and goes on. A load that overwrites its own
      base early does so whenever no region is inlined. */
  lemma RunOp(h: X.Host, env: Env, i: Insn, k: Code, s: X.State) returns (s': X.State)
    requires Ready(h, s) && EnvFits(h, env, s.mem) && s.x.rbx < 2 && Supports(i.op)
    requires IsMulti(i.op) ==> BaseSafe(MultiOf(i)) || env.sram.None?
    ensures Exec(h, OpCode(env, i, k), s) == Exec(h, k, s')
    ensures Effected(s, s', Emitted(i, s.guest, s.mem))
  {
    hide Exec, HostOk, SramOk, BaseSafe, Quiet;
    if IsData(i.op) {
      hide OpCode, Emitted, Effected;
      s' := RunData(h, env, i, k, s);
    } else if IsMemory(i.op) {
      hide OpCode, Emitted, Effected;
      s' := RunMemory(h, env, i, k, s);
    } else if IsMulti(i.op) {
      hide OpCode, Emitted, Effected;
      s' := RunMultiple(h, env, i, k, s);
    } else if IsBranch(i.op) {
      hide OpCode, Emitted, Effected;
      s' := RunJump(h, env, i, k, s);
    } else {
      s' := s;
      SelfEffected(s);
    }
  }

  lemma SelfEffected(s: X.State)
    ensures Effected(s, s, Some((s.guest, s.mem)))
  {
  }
}

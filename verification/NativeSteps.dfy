/** What one emitted instruction does to the machine: the facts the simulation proof
    chains together. */
module NativeSteps {
  import opened Words
  import opened Cpu
  import opened Asm
  import opened Codegen
  import opened NativeRun
  import opened X86
  import Bus

  /** Inside a thunk: r15 and r14 hold the processor and the bus, and the host's
      addresses do not collide. */
  predicate HostOk(h: Host, m: Bus.Memory) {
    && h.cpu + CPU_SIZE < 0x1_0000_0000_0000_0000
    && h.readFn != h.writeFn
    && (h.sram < |m| ==>
         && h.buf + m[h.sram].Size() < 0x1_0000_0000_0000_0000
         && (h.buf + m[h.sram].Size() <= h.cpu || h.cpu + CPU_SIZE <= h.buf))
  }

  predicate Ready(h: Host, s: State) {
    s.status == Running && s.x.r15 == h.cpu && s.x.r14 == h.bus && HostOk(h, s.mem)
  }

  /** One clock tick after s, in the state its instruction produced. */
  function Tick(s: State, s': State): State { s'.(time := s.time + 1) }

  /** An instruction that is not a taken jump. */
  lemma Go(h: Host, a: Asm, k: Code, s: State) returns (s': State)
    requires s.status == Running && Taken(Meaning(a), s.fl).None?
    ensures s' == Step(h, Meaning(a), s) && Exec(h, Then(a, k), s) == Exec(h, k, s')
  {
    hide Step, Meaning, Taken;
    s' := Step(h, Meaning(a), s);
  }

  lemma Jump(h: Host, a: Asm, k: Code, n: nat, k': Code, s: State) returns (s': State)
    requires s.status == Running && Taken(Meaning(a), s.fl) == Some(n) && Skip(k, n) == Some(k')
    ensures s' == Tick(s, s) && Exec(h, Then(a, k), s) == Exec(h, k', s')
  {
    hide Meaning, Taken, Skip;
    s' := Step(h, Meaning(a), s);
    assert Meaning(a).Jmp? || Meaning(a).Jcc? by { TakenJumps(Meaning(a), s.fl); }
    StepJump(h, Meaning(a), s);
  }

  lemma TakenJumps(i: Ins, f: Flags)
    requires Taken(i, f).Some?
    ensures i.Jmp? || i.Jcc?
  {
  }

  lemma StepJump(h: Host, i: Ins, s: State)
    requires i.Jmp? || i.Jcc?
    ensures Step(h, i, s) == Tick(s, s)
  {
    hide EffectMove, EffectAlu, EffectByte;
  }

  /* Moves. */

  lemma DoMov(h: Host, a: Asm, wide: bool, d: Gpr, r: Gpr, k: Code, s: State) returns (s': State)
    requires s.status == Running && Meaning(a) == MovRR(wide, d, r)
    ensures Exec(h, Then(a, k), s) == Exec(h, k, s')
    ensures s' == Tick(s, SetR(s, d, if wide then Get(s.x, r) else Lo32(Get(s.x, r))))
  {
    hide Exec, Meaning, Put, Get, Fail, EffectAlu, EffectByte, EffectStack;
    s' := Go(h, a, k, s);
  }

  lemma DoMovImm(h: Host, a: Asm, d: Gpr, v: u64, k: Code, s: State) returns (s': State)
    requires s.status == Running && (Meaning(a) == MovRI64(d, v) || (v < 0x1_0000_0000 && Meaning(a) == MovRI(d, v)))
    ensures Exec(h, Then(a, k), s) == Exec(h, k, s')
    ensures s' == Tick(s, SetR(s, d, v))
  {
    hide Exec, Meaning, Put, Get, Fail, EffectAlu, EffectByte, EffectStack;
    s' := Go(h, a, k, s);
  }

  lemma GuestAddress(h: Host, s: State, off: u32)
    requires Ready(h, s) && off < CPU_SIZE
    ensures Ea(s.x, R15, off) == h.cpu + off && InCpu(h, h.cpu + off)
  {
  }

  /** Load a field of the guest processor. */
  lemma DoGuestLoad(h: Host, a: Asm, d: Gpr, off: u32, k: Code, s: State) returns (s': State)
    requires Ready(h, s) && Meaning(a) == LoadRM(d, R15, off)
    requires off < CPU_SIZE && CpuField(s.guest, off).Some?
    ensures Exec(h, Then(a, k), s) == Exec(h, k, s')
    ensures s' == Tick(s, SetR(s, d, CpuField(s.guest, off).value))
  {
    hide Exec, Meaning, Put, Get, Fail, CpuField, Ea, InCpu, EffectAlu, EffectByte, EffectStack, HostOk;
    GuestAddress(h, s, off);
    s' := Go(h, a, k, s);
  }

  lemma DoGuestStore(h: Host, a: Asm, d: Gpr, off: u32, k: Code, s: State) returns (s': State)
    requires Ready(h, s) && Meaning(a) == StoreMR(R15, off, d)
    requires off < CPU_SIZE && CpuField(s.guest, off).Some?
    ensures Exec(h, Then(a, k), s) == Exec(h, k, s')
    ensures SetCpuField(s.guest, off, Lo32(Get(s.x, d))).Some?
    ensures s' == Tick(s, s.(guest := SetCpuField(s.guest, off, Lo32(Get(s.x, d))).value))
  {
    hide Exec, Meaning, Put, Get, Fail, Ea, InCpu, EffectAlu, EffectByte, EffectStack, HostOk;
    GuestAddress(h, s, off);
    s' := Go(h, a, k, s);
  }

  lemma DoStPc(h: Host, v: u32, k: Code, s: State) returns (s': State)
    requires Ready(h, s)
    ensures Exec(h, Then(StPc(v), k), s) == Exec(h, k, s')
    ensures s' == Tick(s, s.(guest := s.guest.(r := s.guest.r[REG_PC := v])))
  {
    hide Exec, Put, Get, Fail, Ea, InCpu, EffectAlu, EffectByte, EffectStack, HostOk;
    GuestAddress(h, s, PC_OFF);
    s' := Go(h, StPc(v), k, s);
  }

  /* Arithmetic. */

  lemma DoAlu(h: Host, a: Asm, op: Alu, d: Gpr, r: Gpr, k: Code, s: State) returns (s': State)
    requires s.status == Running && Meaning(a) == AluRR(op, false, d, r)
    ensures Exec(h, Then(a, k), s) == Exec(h, k, s')
    ensures s' == Tick(s, Alu32(s, op, d, Lo32(Get(s.x, d)), Lo32(Get(s.x, r))))
  {
    hide Exec, Meaning, Put, Get, Fail, EffectMove, EffectByte, EffectStack, Alu32, Alu64;
    s' := Go(h, a, k, s);
  }

  lemma DoAluImm(h: Host, a: Asm, op: Alu, d: Gpr, v: u32, k: Code, s: State) returns (s': State)
    requires s.status == Running && Meaning(a) == AluRI(op, false, d, v) && d != RSP
    ensures Exec(h, Then(a, k), s) == Exec(h, k, s')
    ensures s' == Tick(s, Alu32(s, op, d, Lo32(Get(s.x, d)), v))
  {
    hide Exec, Meaning, Put, Get, Fail, EffectMove, EffectByte, EffectStack, Alu32, Alu64, MoveRsp;
    s' := Go(h, a, k, s);
  }

  lemma DoShift(h: Host, a: Asm, left: bool, d: Gpr, n: nat, k: Code, s: State) returns (s': State)
    requires s.status == Running && Meaning(a) == if left then Shl(d, n) else Shr(d, n)
    ensures Exec(h, Then(a, k), s) == Exec(h, k, s')
    ensures s' == Tick(s, SetR(NoiseFlags(h, s), d,
      if left then ShiftLeft(Lo32(Get(s.x, d)), n) else ShiftRight(Lo32(Get(s.x, d)), n)))
  {
    hide Exec, Meaning, Put, Get, Fail, EffectMove, EffectByte, EffectStack, Alu32, Alu64, MoveRsp, NoiseFlags;
    s' := Go(h, a, k, s);
  }

  /* Bytes. */

  lemma DoLahf(h: Host, k: Code, s: State) returns (s': State)
    requires s.status == Running
    ensures Exec(h, Then(Plain(LahfAh), k), s) == Exec(h, k, s')
    ensures s' == Tick(s, SetB(s, AH, AhFlags(h.noise(s.time), s.fl)))
  {
    hide Exec, AhFlags, Put, Get, Fail, EffectMove, EffectAlu, EffectStack, SetB;
    s' := Go(h, Plain(LahfAh), k, s);
  }

  lemma DoSeto(h: Host, k: Code, s: State) returns (s': State)
    requires s.status == Running
    ensures Exec(h, Then(Plain(SetoCl), k), s) == Exec(h, k, s')
    ensures s' == Tick(s, SetB(s, CL, if s.fl.of then 1 else 0))
  {
    hide Exec, AhFlags, Put, Get, Fail, EffectMove, EffectAlu, EffectStack, SetB;
    s' := Go(h, Plain(SetoCl), k, s);
  }

  lemma DoMovzx(h: Host, a: Asm, d: Gpr, r: Byte, k: Code, s: State) returns (s': State)
    requires s.status == Running && Meaning(a) == Movzx(d, r)
    ensures Exec(h, Then(a, k), s) == Exec(h, k, s')
    ensures s' == Tick(s, SetR(s, d, GetByte(s.x, r)))
  {
    hide Exec, Meaning, AhFlags, Put, Get, Fail, EffectMove, EffectAlu, EffectStack, SetB, GetByte;
    s' := Go(h, a, k, s);
  }

  lemma DoMovByte(h: Host, a: Asm, d: Byte, r: Byte, k: Code, s: State) returns (s': State)
    requires s.status == Running && Meaning(a) == MovR8(d, r)
    ensures Exec(h, Then(a, k), s) == Exec(h, k, s')
    ensures s' == Tick(s, SetB(s, d, GetByte(s.x, r)))
  {
    hide Exec, Meaning, AhFlags, Put, Get, Fail, EffectMove, EffectAlu, EffectStack, SetB, GetByte;
    s' := Go(h, a, k, s);
  }

  lemma DoMovByteImm(h: Host, a: Asm, d: Byte, v: u8, k: Code, s: State) returns (s': State)
    requires s.status == Running && Meaning(a) == MovR8I(d, v)
    ensures Exec(h, Then(a, k), s) == Exec(h, k, s')
    ensures s' == Tick(s, SetB(s, d, v))
  {
    hide Exec, Meaning, AhFlags, Put, Get, Fail, EffectMove, EffectAlu, EffectStack, SetB, GetByte;
    s' := Go(h, a, k, s);
  }

  lemma DoShrByte(h: Host, a: Asm, d: Byte, n: nat, k: Code, s: State) returns (s': State)
    requires s.status == Running && Meaning(a) == Shr8(d, n)
    ensures Exec(h, Then(a, k), s) == Exec(h, k, s')
    ensures s' == Tick(s, SetB(NoiseFlags(h, s), d, ShiftRight8(GetByte(s.x, d), n)))
  {
    hide Exec, Meaning, AhFlags, Put, Get, Fail, EffectMove, EffectAlu, EffectStack, SetB, GetByte, NoiseFlags,
         ShiftRight8;
    s' := Go(h, a, k, s);
  }

  lemma DoAlu8(h: Host, a: Asm, op: Alu, d: Byte, r: Byte, k: Code, s: State) returns (s': State)
    requires s.status == Running && Meaning(a) == Alu8RR(op, d, r)
    ensures Exec(h, Then(a, k), s) == Exec(h, k, s')
    ensures s' == Tick(s, Alu8(h, s, op, d, GetByte(s.x, d), GetByte(s.x, r)))
  {
    hide Exec, Meaning, AhFlags, Put, Get, Fail, EffectMove, EffectAlu, EffectStack, SetB, GetByte, Alu8;
    s' := Go(h, a, k, s);
  }

  lemma DoAlu8Imm(h: Host, a: Asm, op: Alu, d: Byte, v: u8, k: Code, s: State) returns (s': State)
    requires s.status == Running && Meaning(a) == Alu8RI(op, d, v)
    ensures Exec(h, Then(a, k), s) == Exec(h, k, s')
    ensures s' == Tick(s, Alu8(h, s, op, d, GetByte(s.x, d), v))
  {
    hide Exec, Meaning, AhFlags, Put, Get, Fail, EffectMove, EffectAlu, EffectStack, SetB, GetByte, Alu8;
    s' := Go(h, a, k, s);
  }

  lemma DoApsrByte(h: Host, k: Code, s: State) returns (s': State)
    requires Ready(h, s)
    ensures Exec(h, Then(LdAlApsrByte3, k), s) == Exec(h, k, s')
    ensures s' == Tick(s, SetB(s, AL, s.guest.apsr / 0x100_0000))
  {
    hide Exec, AhFlags, Put, Get, Fail, EffectMove, EffectAlu, EffectStack, SetB, GetByte, Ea, InCpu, HostOk;
    GuestAddress(h, s, APSR_OFF + 3);
    s' := Go(h, LdAlApsrByte3, k, s);
  }

  lemma DoHalt(h: Host, k: Code, s: State) returns (s': State)
    requires Ready(h, s)
    ensures Exec(h, Then(SetHalted, k), s) == Exec(h, k, s')
    ensures s' == Tick(s, s.(guest := s.guest.(halted := true)))
  {
    hide Exec, AhFlags, Put, Get, Fail, EffectMove, EffectAlu, EffectStack, SetB, GetByte, Ea, InCpu, HostOk;
    GuestAddress(h, s, HALT_OFF);
    s' := Go(h, SetHalted, k, s);
  }

  /* The stack. */

  /** sub rsp, 16 exposes two fresh words; add rsp, 16 drops them. */
  lemma DoReserve(h: Host, k: Code, s: State, n: u8) returns (s': State)
    requires s.status == Running && n % 8 == 0
    ensures Exec(h, B(SubRsp, n, k), s) == Exec(h, k, s')
    ensures s' == Tick(s, MoveRsp(h, s, SUB, n))
  {
    hide Exec, Put, Get, Fail, EffectMove, EffectByte, EffectStack, Alu32, Alu64, MoveRsp;
    s' := Go(h, Imm8(SubRsp, n), k, s);
  }

  lemma DoRelease(h: Host, k: Code, s: State, n: u8) returns (s': State)
    requires s.status == Running && n % 8 == 0
    ensures Exec(h, B(AddRsp, n, k), s) == Exec(h, k, s')
    ensures s' == Tick(s, MoveRsp(h, s, ADD, n))
  {
    hide Exec, Put, Get, Fail, EffectMove, EffectByte, EffectStack, Alu32, Alu64, MoveRsp;
    s' := Go(h, Imm8(AddRsp, n), k, s);
  }

  lemma DoLea(h: Host, k: Code, s: State) returns (s': State)
    requires s.status == Running
    ensures Exec(h, P(LeaR9Rsp0, k), s) == Exec(h, k, s')
    ensures s' == Tick(s, SetR(s, R9, s.x.rsp))
  {
    hide Exec, Put, Fail, EffectMove, EffectByte, EffectAlu, CallHelper, PushReg, PopReg;
    s' := Go(h, Plain(LeaR9Rsp0), k, s);
  }

  lemma DoSlot(h: Host, k: Code, s: State) returns (s': State)
    requires s.status == Running && |s.stack| > 0
    ensures Exec(h, P(MovEcxRsp0, k), s) == Exec(h, k, s')
    ensures s' == Tick(s, SetR(s, RCX, Lo32(s.stack[0])))
  {
    hide Exec, Put, Fail, EffectByte, EffectAlu, EffectStack, Load32;
    s' := Go(h, Plain(MovEcxRsp0), k, s);
  }

  lemma DoCall(h: Host, k: Code, s: State) returns (s': State)
    requires s.status == Running
    ensures Exec(h, P(CallRax, k), s) == Exec(h, k, s')
    ensures s' == Tick(s, CallHelper(h, s, s.x.rax))
  {
    hide Exec, Put, Fail, EffectMove, EffectByte, EffectAlu, CallHelper, PushReg, PopReg;
    s' := Go(h, Plain(CallRax), k, s);
  }

  lemma DoPush(h: Host, a: Asm, r: Gpr, k: Code, s: State) returns (s': State)
    requires s.status == Running && Meaning(a) == Push(r)
    ensures Exec(h, Then(a, k), s) == Exec(h, k, s')
    ensures s' == Tick(s, PushReg(s, Get(s.x, r)))
  {
    hide Exec, Meaning, Put, Get, Fail, EffectMove, EffectByte, EffectAlu, CallHelper, PushReg, PopReg;
    s' := Go(h, a, k, s);
  }

  lemma DoPop(h: Host, a: Asm, r: Gpr, k: Code, s: State) returns (s': State)
    requires s.status == Running && Meaning(a) == Pop(r)
    ensures Exec(h, Then(a, k), s) == Exec(h, k, s')
    ensures s' == Tick(s, PopReg(s, r))
  {
    hide Exec, Meaning, Put, Get, Fail, EffectMove, EffectByte, EffectAlu, CallHelper, PushReg, PopReg;
    s' := Go(h, a, k, s);
  }

  lemma DoRet(h: Host, k: Code, s: State)
    requires s.status == Running
    ensures Exec(h, P(RetIns, k), s) == Tick(s, s.(status := Returned))
  {
    hide EffectMove, EffectByte, EffectAlu, CallHelper, PushReg, PopReg;
  }
}

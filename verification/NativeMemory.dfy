/** Memory accesses from native code: a call to a bus helper, and what becomes of its result. */
module NativeMemory {
  import opened Words
  import opened Cpu
  import opened Asm
  import opened Codegen
  import opened NativeRun
  import opened NativeSteps
  import opened NativeFlags
  import opened Layout
  import opened X86
  import Bus

  /** s' differs from s only in volatile registers, rsi, the x86 flags and the clock,
      besides the fault register, the guest and the memory, which are given. */
  predicate Quiet(s: State, s': State, rbx: u64, g: CpuState, m: Bus.Memory) {
    s' == s.(x := s.x.(rax := s'.x.rax, rcx := s'.x.rcx, rdx := s'.x.rdx, rsi := s'.x.rsi, r8 := s'.x.r8,
                       r9 := s'.x.r9, r10 := s'.x.r10, r11 := s'.x.r11, rbx := rbx),
             fl := s'.fl, time := s'.time, guest := g, mem := m)
  }

  /** The helper addresses compiled into the code are the host's. */
  predicate EnvOk(h: Host, env: Env) {
    env.readFn == h.readFn && env.writeFn == h.writeFn
  }

  lemma AccessMeans(n: u32)
    ensures Meaning(Plain(MovRcxR14)) == MovRR(true, RCX, R14)
    ensures Meaning(Plain(MovEdxEax)) == MovRR(false, RDX, RAX)
    ensures Meaning(Imm32(MovR8d, n)) == MovRI(R8, n)
    ensures Meaning(Imm32(MovR9d, n)) == MovRI(R9, n)
  {
  }

  lemma CommitMeans()
    ensures Meaning(Plain(TestAl)) == Alu8RR(TEST, AL, AL)
    ensures Meaning(Plain(OrBl1)) == Alu8RI(OR, BL, 1)
    ensures Meaning(JmpShort(7)) == Jmp(7)
    ensures Meaning(Jcc8(CcNE, 5)) == Jcc(CcNE, 5)
    ensures Meaning(Jcc8(CcNE, 3)) == Jcc(CcNE, 3)
  {
  }

  /** Room for the out slot, the bus and the address in place. */
  lemma RunArguments(h: Host, k: Code, s: State) returns (s': State)
    requires s.status == Running && s.x.rax < 0x1_0000_0000
    ensures Exec(h, B(SubRsp, 16, P(MovRcxR14, P(MovEdxEax, k))), s) == Exec(h, k, s')
    ensures |s'.stack| == |s.stack| + 2 && s'.stack[2..] == s.stack
    ensures s' == s.(x := s.x.(rsp := Sub64(s.x.rsp, 16), rcx := s.x.r14, rdx := s.x.rax),
                     fl := s'.fl, time := s'.time, stack := s'.stack)
  {
    hide Exec, Meaning, Wrap32, NoFlags, Fresh;
    AccessMeans(0);
    var k1 := P(MovEdxEax, k);
    var s1 := DoReserve(h, P(MovRcxR14, k1), s, 16);
    assert s1.stack == Fresh(h.noise(s.time), 2) + s.stack;
    var s2 := DoMov(h, Plain(MovRcxR14), true, RCX, R14, k1, s1);
    s' := DoMov(h, Plain(MovEdxEax), false, RDX, RAX, k, s2);
  }

  lemma RspBack(rsp: u64, n: u8)
    ensures Add64(Sub64(rsp, n), n) == rsp
  {
  }

  lemma SlotBack(w: u64, v: u32)
    ensures Lo32(w - Lo32(w) + v) == v
  {
  }

  lemma TestByte(h: Host, s: State, v: u8)
    ensures Alu8(h, s, TEST, AL, v, v) == s.(fl := NoFlags(h, s).(zf := v == 0))
  {
    hide NoFlags, And32, Or32, Xor32, Add32, Sub32, GetByte, PutByte;
    AndSelf(v);
  }

  lemma OrByte(h: Host, s: State)
    requires s.x.rbx < 2
    ensures Alu8(h, s, OR, BL, GetByte(s.x, BL), 1) == s.(x := s.x.(rbx := 1), fl := NoFlags(h, s).(zf := false))
  {
    hide NoFlags, And32, Or32, Xor32, Add32, Sub32, GetByte, PutByte;
    OrOne(s.x.rbx);
    BlByte(s.x);
  }

  lemma TestAlStep(h: Host, k: Code, s: State) returns (s': State)
    requires s.status == Running
    ensures Exec(h, P(TestAl, k), s) == Exec(h, k, s')
    ensures s' == s.(fl := s'.fl, time := s.time + 1) && s'.fl.zf == (GetByte(s.x, AL) == 0)
  {
    hide Exec, Meaning, NoFlags, Alu8, GetByte;
    CommitMeans();
    TestByte(h, s, GetByte(s.x, AL));
    s' := DoAlu8(h, Plain(TestAl), TEST, AL, AL, k, s);
  }

  lemma OrOne(b: u32)
    requires b < 2
    ensures Or32(b, 1) == 1
  {
    Powers();
    OrZero(0, 31);
  }

  lemma BlByte(x: RegFile)
    requires x.rbx < 2
    ensures GetByte(x, BL) == x.rbx && PutByte(x, BL, 1) == x.(rbx := 1)
  {
  }

  /** The fault register is 0 until something faults, then 1. */
  lemma OrBlStep(h: Host, k: Code, s: State) returns (s': State)
    requires s.status == Running && s.x.rbx < 2
    ensures Exec(h, P(OrBl1, k), s) == Exec(h, k, s')
    ensures s' == s.(x := s.x.(rbx := 1), fl := s'.fl, time := s.time + 1)
  {
    hide Exec, Meaning, NoFlags, Alu8, GetByte;
    CommitMeans();
    OrByte(h, s);
    s' := DoAlu8Imm(h, Plain(OrBl1), OR, BL, 1, k, s);
  }

  /** s' differs from s only in what a call may clobber, the stack, the memory and the clock. */
  predicate CallKeeps(s: State, s': State) {
    s' == s.(x := s.x.(rax := s'.x.rax, rcx := s'.x.rcx, rdx := s'.x.rdx, r8 := s'.x.r8,
                       r9 := s'.x.r9, r10 := s'.x.r10, r11 := s'.x.r11),
             fl := s'.fl, time := s'.time, stack := s'.stack, mem := s'.mem)
  }

  lemma ClobberAl(h: Host, s: State, ok: bool)
    ensures GetByte(Clobber(h, s, ok).x, AL) == (if ok then 1 else 0) && CallKeeps(s, Clobber(h, s, ok))
    ensures Clobber(h, s, ok).stack == s.stack && Clobber(h, s, ok).mem == s.mem
    ensures Clobber(h, s, ok).x.rsp == s.x.rsp
  {
  }

  lemma ReadHelper(h: Host, s: State, n: Bus.Width)
    requires s.x.rcx == h.bus && s.x.r8 == n && s.x.r9 == s.x.rsp && |s.stack| > 0 && s.x.rdx < 0x1_0000_0000
    ensures var r := CallHelper(h, s, h.readFn); var v := Bus.Read(s.mem, s.x.rdx, n);
      && CallKeeps(s, r) && r.mem == s.mem && GetByte(r.x, AL) == (if v.Some? then 1 else 0)
      && r.stack == if v.Some? then PutSlot(s.stack, v.value) else s.stack
  {
    hide Clobber, GetByte, Bus.Read, PutSlot, CallWrite;
    var v := Bus.Read(s.mem, s.x.rdx, n);
    ClobberAl(h, s, v.Some?);
  }

  lemma WriteHelper(h: Host, s: State, n: Bus.Width)
    requires s.x.rcx == h.bus && s.x.r8 == n && h.readFn != h.writeFn
    requires s.x.rdx < 0x1_0000_0000 && s.x.r9 < 0x1_0000_0000
    ensures var r := CallHelper(h, s, h.writeFn); var m := Bus.Write(s.mem, s.x.rdx, n, s.x.r9);
      && CallKeeps(s, r) && GetByte(r.x, AL) == (if m.Some? then 1 else 0)
      && r.mem == (if m.Some? then m.value else s.mem) && r.stack == s.stack
  {
    hide Clobber, GetByte, Bus.Write, PutSlot, X86.CallRead;
    var m := Bus.Write(s.mem, s.x.rdx, n, s.x.r9);
    ClobberAl(h, s, m.Some?);
  }

  lemma CallMeans(q: u64)
    ensures Meaning(MovRaxQ(q)) == MovRI64(RAX, q)
  {
  }

  lemma SlotRead(stack: seq<u64>, v: Option<u32>)
    requires |stack| >= 2
    ensures v.Some? ==> |PutSlot(stack, v.value)| == |stack|
    ensures v.Some? ==> Lo32(PutSlot(stack, v.value)[0]) == v.value
    ensures v.Some? ==> PutSlot(stack, v.value)[2..] == stack[2..]
  {
    if v.Some? {
      SlotBack(stack[0], v.value);
    }
  }

  /** Width, out slot and helper address in place. */
  lemma RunReadSetup(h: Host, fn: u64, n: Bus.Width, k: Code, s: State) returns (s': State)
    requires s.status == Running
    ensures Exec(h, I(MovR8d, n, P(LeaR9Rsp0, Then(MovRaxQ(fn), k))), s) == Exec(h, k, s')
    ensures s' == s.(x := s.x.(r8 := n, r9 := s.x.rsp, rax := fn), time := s'.time)
  {
    hide Exec, Meaning;
    AccessMeans(n);
    CallMeans(fn);
    var s1 := DoMovImm(h, Imm32(MovR8d, n), R8, n, P(LeaR9Rsp0, Then(MovRaxQ(fn), k)), s);
    var s2 := DoLea(h, Then(MovRaxQ(fn), k), s1);
    s' := DoMovImm(h, MovRaxQ(fn), RAX, fn, k, s2);
  }

  /** The out slot is read and dropped. */
  lemma RunTakeSlot(h: Host, k: Code, s: State) returns (s': State)
    requires s.status == Running && |s.stack| >= 2
    ensures Exec(h, P(MovEcxRsp0, B(AddRsp, 16, k)), s) == Exec(h, k, s')
    ensures s' == s.(x := s.x.(rcx := Lo32(s.stack[0]), rsp := Add64(s.x.rsp, 16)), stack := s.stack[2..],
                     fl := s'.fl, time := s'.time)
  {
    hide Exec, Meaning, Lo32, NoFlags;
    var s1 := DoSlot(h, B(AddRsp, 16, k), s);
    s' := DoRelease(h, k, s1, 16);
  }

  /** The read helper, called with the address in rdx; on success ecx holds the value. */
  lemma RunCallRead(h: Host, env: Env, n: Bus.Width, k: Code, s: State) returns (s': State)
    requires s.status == Running && EnvOk(h, env) && s.x.rcx == h.bus && s.x.rdx < 0x1_0000_0000 && |s.stack| >= 2
    ensures Exec(h, ReadCallCode(env, n, k), s) == Exec(h, k, s')
    ensures CallKeeps(s.(x := s.x.(rsp := Add64(s.x.rsp, 16))), s') && s'.stack == s.stack[2..] && s'.mem == s.mem
    ensures var v := Bus.Read(s.mem, s.x.rdx, n);
      GetByte(s'.x, AL) == (if v.Some? then 1 else 0) && (v.Some? ==> s'.x.rcx == v.value)
  {
    hide Exec, Meaning, NoFlags, GetByte, CallHelper, Bus.Read, PutSlot, Lo32;
    var k4 := P(MovEcxRsp0, B(AddRsp, 16, k));
    var s1 := RunReadSetup(h, env.readFn, n, P(CallRax, k4), s);
    var s2 := DoCall(h, k4, s1);
    ReadHelper(h, s1, n);
    SlotRead(s.stack, Bus.Read(s.mem, s.x.rdx, n));
    s' := RunTakeSlot(h, k, s2);
    SameByte(s2.x, s'.x);
  }

  lemma MaskMeans(v: u32)
    ensures Meaning(Imm32(AndEcx, v)) == AluRI(AND, false, RCX, v)
    ensures Meaning(Imm32(AndR9d, v)) == AluRI(AND, false, R9, v)
  {
  }

  lemma LowMask(v: u32, n: Bus.Width)
    ensures n == 1 ==> And32(v, 0xFF) == Bus.Low(v, n)
    ensures n == 2 ==> And32(v, 0xFFFF) == Bus.Low(v, n)
    ensures n == 4 ==> v == Bus.Low(v, n)
  {
    Powers();
    assert Pow2(8) == 0x100;
    PowSum(8, 8);
    AndLow(v, 8, 32);
    AndLow(v, 16, 32);
  }

  lemma RunMaskEcx(h: Host, n: Bus.Width, k: Code, s: State) returns (s': State)
    requires s.status == Running
    ensures Exec(h, MaskEcx(n, k), s) == Exec(h, k, s')
    ensures s' == s.(x := s.x.(rcx := s'.x.rcx), fl := s'.fl, time := s'.time)
    ensures s.x.rcx < 0x1_0000_0000 ==> s'.x.rcx == Bus.Low(s.x.rcx, n)
  {
    hide Exec, Meaning, AluFlags, And32, Or32, Xor32, Add32, Sub32, Wrap32, Bus.Low;
    LowMask(Lo32(s.x.rcx), n);
    var mask: u32 := if n == 1 then 0xFF else 0xFFFF;
    MaskMeans(mask);
    if n == 4 {
      s' := s;
    } else {
      s' := DoAluImm(h, Imm32(AndEcx, mask), AND, RCX, mask, k, s);
    }
  }

  lemma RunMaskR9d(h: Host, n: Bus.Width, k: Code, s: State) returns (s': State)
    requires s.status == Running && s.x.r9 < 0x1_0000_0000
    ensures Exec(h, MaskR9d(n, k), s) == Exec(h, k, s')
    ensures s' == s.(x := s.x.(r9 := Bus.Low(s.x.r9, n)), fl := s'.fl, time := s'.time)
  {
    hide Exec, Meaning, AluFlags, And32, Or32, Xor32, Add32, Sub32, Wrap32, Bus.Low;
    LowMask(Lo32(s.x.r9), n);
    var mask: u32 := if n == 1 then 0xFF else 0xFFFF;
    MaskMeans(mask);
    if n == 4 {
      s' := s;
    } else {
      s' := DoAluImm(h, Imm32(AndR9d, mask), AND, R9, mask, k, s);
    }
  }

  lemma JumpNe(h: Host, n: u8, k: Code, k': Code, s: State) returns (s': State)
    requires s.status == Running && Meaning(Jcc8(CcNE, n)) == Jcc(CcNE, n) && Skip(k, n) == Some(k')
    ensures s' == Tick(s, s)
    ensures Exec(h, Then(Jcc8(CcNE, n), k), s) == Exec(h, if s.fl.zf then k else k', s')
  {
    hide Exec, Skip, Meaning, Effect;
    assert Taken(Jcc(CcNE, n), s.fl) == if s.fl.zf then None else Some(n);
    if s.fl.zf {
      s' := Go(h, Jcc8(CcNE, n), k, s);
      StepJump(h, Jcc(CcNE, n), s);
    } else {
      s' := Jump(h, Jcc8(CcNE, n), k, n, k', s);
    }
  }

  /** On success ecx goes to the destination register; on failure the fault register is set. */
  lemma RunCommitLoad(h: Host, rd: Reg, k: Code, s: State) returns (s': State)
    requires Ready(h, s) && s.x.rbx < 2
    ensures Exec(h, CommitLoad(rd, k), s) == Exec(h, k, s')
    ensures s' == if GetByte(s.x, AL) == 0 then s.(x := s.x.(rbx := 1), fl := s'.fl, time := s'.time)
                  else s.(guest := s.guest.(r := s.guest.r[rd := Lo32(s.x.rcx)]), fl := s'.fl, time := s'.time)
  {
    hide Exec, Skip, Meaning, GetByte, HostOk, Lo32;
    CommitMeans();
    SpanCommitLoad(rd, k);
    var st := R(StEcx, rd, k);
    var fail := P(OrBl1, Then(JmpShort(7), st));
    var s1 := TestAlStep(h, Then(Jcc8(CcNE, 5), fail), s);
    var s2 := JumpNe(h, 5, fail, st, s1);
    if GetByte(s.x, AL) == 0 {
      var s3 := OrBlStep(h, Then(JmpShort(7), st), s2);
      s' := Jump(h, JmpShort(7), st, 7, k, s3);
    } else {
      s' := StoreReg(h, rd, k, s2);
    }
  }

  lemma StoreMeans(j: Reg)
    ensures Meaning(Disp(StEcx, RegDisp(j))) == StoreMR(R15, 4 * j, RCX)
    ensures Meaning(Disp(DispOp.StEax, RegDisp(j))) == StoreMR(R15, 4 * j, RAX)
  {
  }

  lemma StoreReg(h: Host, j: Reg, k: Code, s: State) returns (s': State)
    requires Ready(h, s)
    ensures Exec(h, R(StEcx, j, k), s) == Exec(h, k, s')
    ensures s' == Tick(s, s.(guest := s.guest.(r := s.guest.r[j := Lo32(s.x.rcx)])))
  {
    hide Exec, Meaning, HostOk, Lo32;
    StoreMeans(j);
    s' := DoGuestStore(h, Disp(StEcx, RegDisp(j)), RCX, 4 * j, k, s);
  }

  lemma StoreEax(h: Host, j: Reg, k: Code, s: State) returns (s': State)
    requires Ready(h, s)
    ensures Exec(h, R(StEax, j, k), s) == Exec(h, k, s')
    ensures s' == Tick(s, s.(guest := s.guest.(r := s.guest.r[j := Lo32(s.x.rax)])))
  {
    hide Exec, Meaning, HostOk, Lo32;
    StoreMeans(j);
    s' := DoGuestStore(h, Disp(DispOp.StEax, RegDisp(j)), RAX, 4 * j, k, s);
  }

  lemma RunCommitStore(h: Host, k: Code, s: State) returns (s': State)
    requires s.status == Running && s.x.rbx < 2
    ensures Exec(h, CommitStore(k), s) == Exec(h, k, s')
    ensures s' == s.(x := s.x.(rbx := if GetByte(s.x, AL) == 0 then 1 else s.x.rbx), fl := s'.fl, time := s'.time)
  {
    hide Exec, Skip, Meaning, GetByte;
    CommitMeans();
    SpanCommitStore(k);
    var fail := P(OrBl1, k);
    var s1 := TestAlStep(h, Then(Jcc8(CcNE, 3), fail), s);
    var s2 := JumpNe(h, 3, fail, k, s1);
    if GetByte(s.x, AL) == 0 {
      s' := OrBlStep(h, k, s2);
    } else {
      s' := s2;
    }
  }

  lemma LoadedValue(m: Bus.Memory, a: u32, n: Bus.Width)
    ensures Bus.Read(m, a, n).Some? ==> Bus.Low(Bus.Read(m, a, n).value, n) == Bus.Read(m, a, n).value
  {
    if Bus.Read(m, a, n).Some? {
      Bus.ReadBound(m, a, n);
    }
  }

  /** A bus read into guest register rd at the address in eax. */
  lemma RunLoadFromEax(h: Host, env: Env, rd: Reg, n: Bus.Width, k: Code, s: State) returns (s': State)
    requires Ready(h, s) && EnvOk(h, env) && s.x.rbx < 2 && s.x.rax < 0x1_0000_0000
    ensures Exec(h, LoadFromEax(env, rd, n, k), s) == Exec(h, k, s')
    ensures match Bus.Read(s.mem, s.x.rax, n)
      case None => Quiet(s, s', 1, s.guest, s.mem)
      case Some(v) => Quiet(s, s', s.x.rbx, s.guest.(r := s.guest.r[rd := v]), s.mem)
  {
    hide Exec, HostOk, Bus.Read, Bus.Low, GetByte, MaskEcx, CommitLoad, ReadCallCode, Wrap32, Sub64, Add64;
    LoadedValue(s.mem, s.x.rax, n);
    RspBack(s.x.rsp, 16);
    var k3 := CommitLoad(rd, k);
    var k2 := MaskEcx(n, k3);
    var s1 := RunArguments(h, ReadCallCode(env, n, k2), s);
    var s2 := RunCallRead(h, env, n, k2, s1);
    var s3 := RunMaskEcx(h, n, k3, s2);
    SameByte(s2.x, s3.x);
    s' := RunCommitLoad(h, rd, k, s3);
  }

  lemma LoadRegMeans(j: Reg)
    ensures Meaning(Disp(DispOp.LdEax, RegDisp(j))) == LoadRM(RAX, R15, 4 * j)
    ensures Meaning(Disp(LdEcx, RegDisp(j))) == LoadRM(RCX, R15, 4 * j)
    ensures Meaning(Disp(LdR9d, RegDisp(j))) == LoadRM(R9, R15, 4 * j)
  {
  }

  lemma LoadR9(h: Host, j: Reg, k: Code, s: State) returns (s': State)
    requires Ready(h, s)
    ensures Exec(h, R(LdR9d, j, k), s) == Exec(h, k, s')
    ensures s' == Tick(s, s.(x := s.x.(r9 := s.guest.r[j])))
  {
    hide Exec, Meaning, HostOk;
    LoadRegMeans(j);
    s' := DoGuestLoad(h, Disp(LdR9d, RegDisp(j)), R9, 4 * j, k, s);
  }

  lemma LoadEax(h: Host, j: Reg, k: Code, s: State) returns (s': State)
    requires Ready(h, s)
    ensures Exec(h, R(DispOp.LdEax, j, k), s) == Exec(h, k, s')
    ensures s' == Tick(s, s.(x := s.x.(rax := s.guest.r[j])))
  {
    hide Exec, Meaning, HostOk;
    LoadRegMeans(j);
    s' := DoGuestLoad(h, Disp(DispOp.LdEax, RegDisp(j)), RAX, 4 * j, k, s);
  }

  lemma LoadEcx(h: Host, j: Reg, k: Code, s: State) returns (s': State)
    requires Ready(h, s)
    ensures Exec(h, R(LdEcx, j, k), s) == Exec(h, k, s')
    ensures s' == Tick(s, s.(x := s.x.(rcx := s.guest.r[j])))
  {
    hide Exec, Meaning, HostOk;
    LoadRegMeans(j);
    s' := DoGuestLoad(h, Disp(LdEcx, RegDisp(j)), RCX, 4 * j, k, s);
  }

  /** The write helper, called with bus, address, width and value in place, and what follows it. */
  lemma RunCallWrite(h: Host, env: Env, n: Bus.Width, k: Code, s: State) returns (s': State)
    requires s.status == Running && EnvOk(h, env) && h.readFn != h.writeFn && s.x.rbx < 2 && |s.stack| >= 2
    requires s.x.rcx == h.bus && s.x.r8 == n && s.x.rdx < 0x1_0000_0000 && s.x.r9 < 0x1_0000_0000
    ensures Exec(h, Then(MovRaxQ(env.writeFn), P(CallRax, B(AddRsp, 16, CommitStore(k)))), s) == Exec(h, k, s')
    ensures var m := Bus.Write(s.mem, s.x.rdx, n, s.x.r9);
      var t := s.(x := s.x.(rsp := Add64(s.x.rsp, 16)), stack := s.stack[2..]);
      if m.Some? then Quiet(t, s', s.x.rbx, s.guest, m.value) else Quiet(t, s', 1, s.guest, s.mem)
  {
    hide Exec, Meaning, Bus.Write, GetByte, CommitStore, CallHelper, NoFlags, Add64;
    CallMeans(env.writeFn);
    var k3 := CommitStore(k);
    var k2 := B(AddRsp, 16, k3);
    var s1 := DoMovImm(h, MovRaxQ(env.writeFn), RAX, env.writeFn, P(CallRax, k2), s);
    var s2 := DoCall(h, k2, s1);
    WriteHelper(h, s1, n);
    var s3 := DoRelease(h, k3, s2, 16);
    SameByte(s2.x, s3.x);
    s' := RunCommitStore(h, k, s3);
  }

  /** Width and value in place. */
  lemma RunStoreValue(h: Host, rd: Reg, n: Bus.Width, k: Code, s: State) returns (s': State)
    requires Ready(h, s)
    ensures Exec(h, I(MovR8d, n, R(LdR9d, rd, MaskR9d(n, k))), s) == Exec(h, k, s')
    ensures s' == s.(x := s.x.(r8 := n, r9 := Bus.Low(s.guest.r[rd], n)), fl := s'.fl, time := s'.time)
  {
    hide Exec, Meaning, HostOk, Bus.Low, MaskR9d;
    AccessMeans(n);
    var k3 := MaskR9d(n, k);
    var s1 := DoMovImm(h, Imm32(MovR8d, n), R8, n, R(LdR9d, rd, k3), s);
    var s2 := LoadR9(h, rd, k3, s1);
    s' := RunMaskR9d(h, n, k, s2);
  }

  lemma DistinctHelpers(h: Host, m: Bus.Memory)
    requires HostOk(h, m)
    ensures h.readFn != h.writeFn
  {
  }

  /** A bus write of guest register rd at the address in eax. */
  lemma RunStoreFromEax(h: Host, env: Env, rd: Reg, n: Bus.Width, k: Code, s: State) returns (s': State)
    requires Ready(h, s) && EnvOk(h, env) && s.x.rbx < 2 && s.x.rax < 0x1_0000_0000
    ensures Exec(h, StoreFromEax(env, rd, n, k), s) == Exec(h, k, s')
    ensures match Bus.Write(s.mem, s.x.rax, n, s.guest.r[rd])
      case None => Quiet(s, s', 1, s.guest, s.mem)
      case Some(m) => Quiet(s, s', s.x.rbx, s.guest, m)
  {
    hide Exec, HostOk, Bus.Write, Bus.Low, MaskR9d, CommitStore, Sub64, Add64;
    Bus.WriteLow(s.mem, s.x.rax, n, s.guest.r[rd]);
    DistinctHelpers(h, s.mem);
    RspBack(s.x.rsp, 16);
    var k4 := Then(MovRaxQ(env.writeFn), P(CallRax, B(AddRsp, 16, CommitStore(k))));
    var s1 := RunArguments(h, I(MovR8d, n, R(LdR9d, rd, MaskR9d(n, k4))), s);
    var s2 := RunStoreValue(h, rd, n, k4, s1);
    s' := RunCallWrite(h, env, n, k, s2);
  }
}

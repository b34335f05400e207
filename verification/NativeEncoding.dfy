/** Every immediate and displacement the generator emits fits its encoding, so emitted
    code decodes to what it was meant to be. */
module NativeEncoding {
  import opened Words
  import opened Cpu
  import opened Insn
  import opened Asm
  import opened Codegen
  import opened NativeRun
  import opened NativeBranch
  import opened NativeData
  import opened NativeAccess
  import opened Layout
  import X86
  import Bus
  import Nvic

  lemma E1(a: Asm, k: Code)
    requires Encodable(a) && AllEncodable(k)
    ensures AllEncodable(Then(a, k))
  {
  }

  lemma E2(a: Asm, b: Asm, k: Code)
    requires Encodable(a) && Encodable(b) && AllEncodable(k)
    ensures AllEncodable(Then(a, Then(b, k)))
  {
    E1(b, k);
  }

  lemma E4(a: Asm, b: Asm, c: Asm, d: Asm, k: Code)
    requires Encodable(a) && Encodable(b) && Encodable(c) && Encodable(d) && AllEncodable(k)
    ensures AllEncodable(Then(a, Then(b, Then(c, Then(d, k)))))
  {
    hide Encodable;
    E2(c, d, k);
    E2(a, b, Then(c, Then(d, k)));
  }

  lemma SignBitFits(k: Code)
    requires AllEncodable(k)
    ensures AllEncodable(SignBit(k))
  {
    hide AllEncodable;
    E2(Imm8(ShrEsi, 7), Imm8(ShlEsi, 31), k);
    E1(Plain(MovEsiEdx), B(ShrEsi, 7, B(ShlEsi, 31, k)));
  }

  lemma ZeroBitFits(k: Code)
    requires AllEncodable(k)
    ensures AllEncodable(ZeroBit(k))
  {
    hide AllEncodable;
    E1(Plain(OrEsiR10d), k);
    E4(Plain(MovR10dEdx), Imm8(ShrR10d, 6), Imm32(AndR10d, 1), Imm8(ShlR10d, 30), P(OrEsiR10d, k));
  }

  lemma CarryBitFits(isSub: bool, k: Code)
    requires AllEncodable(k)
    ensures AllEncodable(CarryBit(isSub, k))
  {
    hide AllEncodable;
    var shift := B(ShlR10d, 29, P(OrEsiR10d, k));
    E2(Imm8(ShlR10d, 29), Plain(OrEsiR10d), k);
    if isSub {
      E1(Imm32(XorR10d, 1), shift);
      E2(Plain(MovR10dEdx), Imm32(AndR10d, 1), I(XorR10d, 1, shift));
    } else {
      E2(Plain(MovR10dEdx), Imm32(AndR10d, 1), shift);
    }
  }

  lemma OverflowBitFits(k: Code)
    requires AllEncodable(k)
    ensures AllEncodable(OverflowBit(k))
  {
    hide AllEncodable;
    E2(Imm8(ShlR10d, 28), Plain(OrEsiR10d), k);
    E1(Plain(MovzxR10dCl), B(ShlR10d, 28, P(OrEsiR10d, k)));
  }

  lemma MergeFits(mask: u32, k: Code)
    requires AllEncodable(k)
    ensures AllEncodable(MergeApsr(mask, k))
  {
    hide AllEncodable;
    E4(Disp(LdR10d, X86.APSR_OFF), Imm32(AndR10d, mask), Plain(OrR10dEsi), Disp(StR10d, X86.APSR_OFF), k);
  }

  lemma NzcvFits(isSub: bool, k: Code)
    requires AllEncodable(k)
    ensures AllEncodable(FlagsNzcvCode(isSub, k))
  {
    hide AllEncodable, SignBit, ZeroBit, CarryBit, OverflowBit, MergeApsr;
    var k4 := MergeApsr(0x0FFF_FFFF, k);
    var k3 := OverflowBit(k4);
    var k2 := CarryBit(isSub, k3);
    var k1 := SignBit(ZeroBit(k2));
    MergeFits(0x0FFF_FFFF, k);
    OverflowBitFits(k4);
    CarryBitFits(isSub, k3);
    ZeroBitFits(k2);
    SignBitFits(ZeroBit(k2));
    E2(Plain(MovzxEdxAh), Plain(MovEaxR11d), k1);
    E2(Plain(LahfAh), Plain(SetoCl), P(MovzxEdxAh, P(MovEaxR11d, k1)));
    E1(Plain(MovR11dEax), P(LahfAh, P(SetoCl, P(MovzxEdxAh, P(MovEaxR11d, k1)))));
  }

  lemma NzFits(k: Code)
    requires AllEncodable(k)
    ensures AllEncodable(FlagsNzCode(k)) && AllEncodable(TestNz(k))
  {
    hide AllEncodable, SignBit, ZeroBit, MergeApsr;
    var k2 := MergeApsr(0x3FFF_FFFF, k);
    var k1 := SignBit(ZeroBit(k2));
    MergeFits(0x3FFF_FFFF, k);
    ZeroBitFits(k2);
    SignBitFits(ZeroBit(k2));
    E4(Plain(MovR11dEax), Plain(LahfAh), Plain(MovzxEdxAh), Plain(MovEaxR11d), k1);
    E1(Plain(TestEaxEax), FlagsNzCode(k));
  }

  lemma MaskFits(n: Bus.Width, k: Code)
    requires AllEncodable(k)
    ensures AllEncodable(MaskEcx(n, k)) && AllEncodable(MaskR9d(n, k))
  {
  }

  lemma CommitLoadFits(rd: Reg, k: Code)
    requires AllEncodable(k)
    ensures AllEncodable(CommitLoad(rd, k))
  {
    hide AllEncodable;
    E1(Disp(StEcx, RegDisp(rd)), k);
    E4(Plain(TestAl), Jcc8(X86.CcNE, 5), Plain(OrBl1), JmpShort(7), R(StEcx, rd, k));
  }

  lemma CommitStoreFits(k: Code)
    requires AllEncodable(k)
    ensures AllEncodable(CommitStore(k))
  {
    hide AllEncodable;
    E1(Plain(OrBl1), k);
    E2(Plain(TestAl), Jcc8(X86.CcNE, 3), P(OrBl1, k));
  }

  lemma ReadCallFits(env: Env, n: Bus.Width, k: Code)
    requires AllEncodable(k)
    ensures AllEncodable(ReadCallCode(env, n, k))
  {
    hide AllEncodable;
    E2(Plain(MovEcxRsp0), Imm8(AddRsp, 16), k);
    E4(Imm32(MovR8d, n), Plain(LeaR9Rsp0), MovRaxQ(env.readFn), Plain(CallRax), P(MovEcxRsp0, B(AddRsp, 16, k)));
  }

  lemma ArgumentsFit(k: Code)
    requires AllEncodable(k)
    ensures AllEncodable(B(SubRsp, 16, P(MovRcxR14, P(MovEdxEax, k))))
  {
    hide AllEncodable;
    E2(Plain(MovRcxR14), Plain(MovEdxEax), k);
    E1(Imm8(SubRsp, 16), P(MovRcxR14, P(MovEdxEax, k)));
  }

  lemma WriteCallFits(env: Env, k: Code)
    requires AllEncodable(k)
    ensures AllEncodable(Then(MovRaxQ(env.writeFn), P(CallRax, B(AddRsp, 16, CommitStore(k)))))
  {
    hide AllEncodable, CommitStore;
    CommitStoreFits(k);
    E1(Imm8(AddRsp, 16), CommitStore(k));
    E2(MovRaxQ(env.writeFn), Plain(CallRax), B(AddRsp, 16, CommitStore(k)));
  }

  lemma LoadFits(env: Env, rd: Reg, n: Bus.Width, k: Code)
    requires AllEncodable(k)
    ensures AllEncodable(LoadFromEax(env, rd, n, k))
  {
    hide AllEncodable, CommitLoad, ReadCallCode, MaskEcx;
    var k2 := MaskEcx(n, CommitLoad(rd, k));
    CommitLoadFits(rd, k);
    MaskFits(n, CommitLoad(rd, k));
    ReadCallFits(env, n, k2);
    ArgumentsFit(ReadCallCode(env, n, k2));
  }

  lemma StoreFits(env: Env, rd: Reg, n: Bus.Width, k: Code)
    requires AllEncodable(k)
    ensures AllEncodable(StoreFromEax(env, rd, n, k))
  {
    hide AllEncodable, CommitStore, MaskR9d;
    var k3 := Then(MovRaxQ(env.writeFn), P(CallRax, B(AddRsp, 16, CommitStore(k))));
    WriteCallFits(env, k);
    MaskFits(n, k3);
    E2(Imm32(MovR8d, n), Disp(LdR9d, RegDisp(rd)), MaskR9d(n, k3));
    ArgumentsFit(I(MovR8d, n, R(LdR9d, rd, MaskR9d(n, k3))));
  }

  lemma UpdateFits(sh: Shape, k: Code)
    requires AllEncodable(k)
    ensures AllEncodable(UpdateCode(sh, k))
  {
    hide AllEncodable, FlagsNzcvCode, FlagsNzCode, TestNz;
    NzFits(k);
    NzcvFits(sh.op.ArSub?, k);
  }

  lemma ComputeFits(sh: Shape, k: Code)
    requires AllEncodable(k)
    ensures AllEncodable(ComputeCode(sh, k))
  {
    hide AllEncodable;
    match sh.src {
      case FromReg(j) =>
        E1(Disp(DispOp.LdEax, RegDisp(j)), k);
        E1(Plain(RegOp(sh.op)), k);
        E2(Disp(DispOp.LdEax, RegDisp(sh.rn)), Disp(DispOp.LdEcx, RegDisp(j)), P(RegOp(sh.op), k));
      case Const(v) =>
        E1(Imm32(MovEax, v), k);
        E2(Disp(DispOp.LdEax, RegDisp(sh.rn)), Imm32(ConstOp(sh.op), v), k);
    }
  }

  lemma DataFits(i: Insn, k: Code)
    requires IsData(i.op) && AllEncodable(k)
    ensures AllEncodable(DataCode(i, k))
  {
    hide AllEncodable, DataCode, ShapeOf, ComputeCode, UpdateCode;
    DataCodeShape(i, k);
    var sh := ShapeOf(i);
    E1(Disp(DispOp.StEax, RegDisp(i.rd)), k);
    var end := if sh.store then R(StEax, i.rd, k) else k;
    UpdateFits(sh, end);
    ComputeFits(sh, UpdateCode(sh, end));
  }

  lemma AddressFits(a: Address, k: Code)
    requires AllEncodable(k)
    ensures AllEncodable(AddressCode(a, k))
  {
    hide AllEncodable;
    match a {
      case Based(rn, imm) =>
        E1(Imm32(AddEax, imm), k);
        E1(Disp(DispOp.LdEax, RegDisp(rn)), AddOffset(imm, k));
      case Fixed(v) => E1(Imm32(MovEax, v), k);
      case Summed(rn, rm) =>
        E1(Plain(OpAddEc), k);
        E2(Disp(DispOp.LdEax, RegDisp(rn)), Disp(DispOp.LdEcx, RegDisp(rm)), P(OpAddEc, k));
    }
  }

  lemma {:induction false} AccessesFit(env: Env, ts: seq<Access>, k: Code)
    requires AllEncodable(k)
    ensures AllEncodable(AccessesCode(env, ts, k))
    decreases |ts|
  {
    hide AllEncodable, AddressCode, LoadFromEax, StoreFromEax;
    if |ts| != 0 {
      var rest := AccessesCode(env, ts[1..], k);
      AccessesFit(env, ts[1..], k);
      LoadFits(env, ts[0].rd, ts[0].n, rest);
      StoreFits(env, ts[0].rd, ts[0].n, rest);
      AddressFits(ts[0].a, LoadFromEax(env, ts[0].rd, ts[0].n, rest));
      AddressFits(ts[0].a, StoreFromEax(env, ts[0].rd, ts[0].n, rest));
    }
  }

  lemma DownFits(t: Multi, k: Code)
    requires AllEncodable(k)
    ensures AllEncodable(Down(t, k))
  {
    E1(Imm32(SubEax, t.Len()), k);
  }

  lemma FastOneFits(t: Multi, j: Reg, off: u32, k: Code)
    requires AllEncodable(k)
    ensures AllEncodable(FastOne(t, j, off, k))
  {
    hide AllEncodable, Down;
    if t.load {
      E2(Disp(LdR11Ecx, off), Disp(StEcx, RegDisp(j)), k);
    } else if j == REG_PC {
      DownFits(t, k);
      E1(Disp(DispOp.LdEax, RegDisp(t.base)), Down(t, k));
      E2(Imm32(MovEax, t.pcWord), Disp(StR11Eax, off), R(LdEax, t.base, Down(t, k)));
    } else {
      E2(Disp(DispOp.LdEcx, RegDisp(j)), Disp(StR11Ecx, off), k);
    }
  }

  lemma {:induction false} FastLoopFits(t: Multi, j: nat, off: u32, k: Code)
    requires j <= 16 && AllEncodable(k)
    ensures AllEncodable(FastLoop(t, j, off, k))
    decreases 16 - j
  {
    hide AllEncodable, FastOne;
    if j == 16 {
    } else if j !in t.regs {
      FastLoopFits(t, j + 1, off, k);
    } else {
      FastLoopFits(t, j + 1, Add32(off, 4), k);
      FastOneFits(t, j, off, FastLoop(t, j + 1, Add32(off, 4), k));
    }
  }

  lemma SlowAccessFits(env: Env, t: Multi, j: Reg, k: Code)
    requires AllEncodable(k)
    ensures AllEncodable(SlowAccess(env, t, j, k))
  {
    hide AllEncodable, CommitLoad, CommitStore, ReadCallCode;
    if t.load {
      CommitLoadFits(j, k);
      ReadCallFits(env, 4, CommitLoad(j, k));
    } else {
      var tail := Then(MovRaxQ(env.writeFn), P(CallRax, B(AddRsp, 16, CommitStore(k))));
      WriteCallFits(env, k);
      E1(Imm32(MovR9d, t.pcWord), tail);
      E1(Disp(LdR9d, RegDisp(j)), tail);
      E1(Imm32(MovR8d, 4), SlowSource(t, j, tail));
    }
  }

  lemma SlowOneFits(env: Env, t: Multi, j: Reg, off: u32, k: Code)
    requires AllEncodable(k)
    ensures AllEncodable(SlowOne(env, t, j, off, k))
  {
    hide AllEncodable, Down, CommitLoad, CommitStore, ReadCallCode, SlowSource;
    var access := SlowAccess(env, t, j, k);
    var sub := B(SubRsp, 16, P(MovRcxR14, P(MovEdxEax, I(AddEdx, off, access))));
    SlowAccessFits(env, t, j, k);
    E1(Imm32(AddEdx, off), access);
    ArgumentsFit(I(AddEdx, off, access));
    DownFits(t, sub);
    E1(Disp(DispOp.LdEax, RegDisp(t.base)), Down(t, sub));
  }

  lemma {:induction false} SlowLoopFits(env: Env, t: Multi, j: nat, off: u32, k: Code)
    requires j <= 16 && AllEncodable(k)
    ensures AllEncodable(SlowLoop(env, t, j, off, k))
    decreases 16 - j
  {
    hide AllEncodable, SlowOne;
    if j == 16 {
    } else if j !in t.regs {
      SlowLoopFits(env, t, j + 1, off, k);
    } else {
      SlowLoopFits(env, t, j + 1, Add32(off, 4), k);
      SlowOneFits(env, t, j, off, SlowLoop(env, t, j + 1, Add32(off, 4), k));
    }
  }

  lemma WritebackFits(t: Multi, k: Code)
    requires AllEncodable(k)
    ensures AllEncodable(WritebackCode(t, k))
  {
    hide AllEncodable;
    var op := if t.down then SubEax else AddEax;
    E1(Disp(DispOp.StEax, RegDisp(t.base)), k);
    E2(Disp(DispOp.LdEax, RegDisp(t.base)), Imm32(op, t.Len()), R(StEax, t.base, k));
  }

  lemma SlowPathFits(env: Env, t: Multi, k: Code)
    requires AllEncodable(k)
    ensures AllEncodable(SlowPath(env, t, k))
  {
    hide AllEncodable, SlowLoop, WritebackCode;
    WritebackFits(t, k);
    SlowLoopFits(env, t, 0, 0, WritebackCode(t, k));
  }

  lemma FastPathFits(f: Sram, t: Multi, k: Code)
    requires AllEncodable(k)
    ensures AllEncodable(FastPath(f, t, k))
  {
    hide AllEncodable, FastLoop, WritebackCode;
    WritebackFits(t, k);
    FastLoopFits(t, 0, 0, WritebackCode(t, k));
    E4(MovR10Q(f.buf), Plain(MovR11dEax), Plain(AddR11R10), Imm32(SubR11, f.base),
      FastLoop(t, 0, 0, WritebackCode(t, k)));
  }

  lemma JumpOverFits(t: Multi, k: Code)
    requires AllEncodable(k) && SlowBody(t) < 0x8000_0000
    ensures AllEncodable(JumpOver(t, k))
  {
    hide SlowBody;
    var n := SlowBody(t);
    if n <= 127 {
      E1(JmpShort(n), k);
    } else {
      E1(JmpNear(n), k);
    }
  }

  lemma MultiFits(env: Env, t: Multi, k: Code)
    requires AllEncodable(k)
    ensures AllEncodable(MultiCode(env, t, k))
  {
    hide AllEncodable, FastPath, SlowPath, JumpOver, SlowBody, JbTarget, JaTarget;
    SlowPathFits(env, t, k);
    if env.sram.Some? && JbTarget(t) <= 127 {
      var f, slow := env.sram.value, SlowPath(env, t, k);
      SlowFits(t);
      JumpsLand(env, f, t, k);
      JumpOverFits(t, slow);
      FastPathFits(f, t, JumpOver(t, slow));
      E4(Imm32(CmpEax, f.base), Jcc8(X86.CcB, JbTarget(t)), Imm32(CmpEax, HighestStart(f, t)),
        Jcc8(X86.CcA, JaTarget(t)), FastPath(f, t, JumpOver(t, slow)));
    }
  }

  lemma TransfersFit(env: Env, t: Multi, k: Code)
    requires AllEncodable(k)
    ensures AllEncodable(PushCode(env, t, k)) && AllEncodable(LdmStmCode(env, t, k))
  {
    hide AllEncodable, MultiCode, Down, Count;
    var multi := MultiCode(env, t, k);
    MultiFits(env, t, k);
    DownFits(t, multi);
    E1(Disp(DispOp.LdEax, RegDisp(t.base)), Down(t, multi));
    E1(Disp(DispOp.StEax, RegDisp(REG_SP)), multi);
    E2(Disp(DispOp.LdEax, RegDisp(REG_SP)), Imm32(SubEax, t.Len()), R(StEax, REG_SP, multi));
  }

  lemma CondTestFits(cond: nat, k: Code)
    requires cond < 14 && AllEncodable(k)
    ensures AllEncodable(CondTest(cond, k))
  {
    hide AllEncodable, CondTest;
    CondTestCases(cond, k);
    if cond < 8 {
      E1(Imm8(TestAlImm, SimpleMask(cond)), k);
    } else if cond < 10 {
      E2(Imm8(AndAlImm, 6), Imm8(CmpAlImm, 2), k);
    } else {
      E4(Plain(MovAhAl), Imm8(ShrAh, 3), Plain(XorAlAh), Imm8(TestAlImm, if cond < 12 then 1 else 5), k);
    }
  }

  lemma BCondFits(i: Insn, k: Code)
    requires AllEncodable(k)
    ensures AllEncodable(BCondCode(i, k))
  {
    hide AllEncodable, CondTest, CondJump;
    var target, fall := Add32(Add32(i.pc, 4), i.imm), Add32(i.pc, i.size);
    E1(StPc(target), k);
    E1(StPc(fall), k);
    if i.cond < 14 {
      var jump := PickPc(i.cond, fall, target, k);
      E4(JccNear(CondJump(i.cond), 13), StPc(fall), JmpShort(11), StPc(target), k);
      BCondShape(i, k);
      CondTestFits(i.cond, jump);
      E1(Imm8(ShrAl, 4), CondTest(i.cond, jump));
      E1(LdAlApsrByte3, if i.cond >= 8 then B(ShrAl, 4, CondTest(i.cond, jump)) else CondTest(i.cond, jump));
    }
  }

  lemma BranchFits(i: Insn, k: Code)
    requires IsBranch(i.op) && AllEncodable(k)
    ensures AllEncodable(BranchCode(i, k))
  {
    hide AllEncodable, BCondCode;
    var target := Add32(Add32(i.pc, 4), i.imm);
    BCondFits(i, k);
    E1(StPc(target), k);
    E1(StPc(Nvic.Even(target)), k);
    E2(Imm32(MovEax, Nvic.SetThumb(Add32(i.pc, i.size))), Disp(DispOp.StEax, RegDisp(REG_LR)),
      Then(StPc(Nvic.Even(target)), k));
  }

  lemma OpFits(env: Env, i: Insn, k: Code)
    requires AllEncodable(k)
    ensures AllEncodable(OpCode(env, i, k))
  {
    hide AllEncodable, DataCode, MemoryCode, AccessesCode, AccessesOf, PushCode, LdmStmCode, BranchCode;
    if IsData(i.op) {
      DataFits(i, k);
    } else if IsMemory(i.op) {
      MemoryCodeShape(env, i, k);
      AccessesFit(env, AccessesOf(i), k);
    } else if IsMulti(i.op) {
      TransfersFit(env, PushMulti(i), k);
      TransfersFit(env, PopMulti(i), k);
      TransfersFit(env, LdmStmMulti(i), k);
    } else if IsBranch(i.op) {
      BranchFits(i, k);
    }
  }

  lemma {:induction false} OpsFit(env: Env, ins: seq<Insn>, k: Code)
    requires AllEncodable(k)
    ensures AllEncodable(OpsCode(env, ins, k))
    decreases |ins|
  {
    hide AllEncodable, OpCode;
    if |ins| != 0 {
      OpsFit(env, ins[1..], k);
      OpFits(env, ins[0], OpsCode(env, ins[1..], k));
    }
  }

  lemma UnwindFits(k: Code)
    requires AllEncodable(k)
    ensures AllEncodable(Unwind(k))
  {
    hide AllEncodable;
    E1(Plain(PopR15), k);
    E4(Imm8(AddRsp, 32), Plain(PopRsi), Plain(PopRbx), Plain(PopR14), P(PopR15, k));
  }

  lemma EpilogueFits(k: Code)
    requires AllEncodable(k)
    ensures AllEncodable(Epilogue(k))
  {
    hide AllEncodable, Unwind;
    var good := Unwind(P(MovAl1, P(RetIns, k)));
    var fail := Unwind(P(XorAlAl, P(RetIns, good)));
    E2(Plain(MovAl1), Plain(RetIns), k);
    UnwindFits(P(MovAl1, P(RetIns, k)));
    E2(Plain(XorAlAl), Plain(RetIns), good);
    UnwindFits(P(XorAlAl, P(RetIns, good)));
    E1(SetHalted, fail);
    E2(Plain(TestBl), Jcc8(X86.CcE, 21), Then(SetHalted, fail));
  }

  lemma BlockFits(env: Env, ins: seq<Insn>, k: Code)
    requires |ins| > 0 && AllEncodable(k)
    ensures AllEncodable(BlockCode(env, ins, k))
  {
    hide AllEncodable, OpsCode, Epilogue;
    var last := ins[|ins| - 1];
    EpilogueFits(k);
    E1(StPc(Add32(last.pc, last.size)), Epilogue(k));
    var ops := OpsCode(env, ins, FallThrough(last, Epilogue(k)));
    OpsFit(env, ins, FallThrough(last, Epilogue(k)));
    E1(Plain(ClearFail), ops);
    E2(Plain(MovR15Rcx), Plain(MovR14Rdx), P(ClearFail, ops));
    E1(Imm8(SubRsp, 32), P(MovR15Rcx, P(MovR14Rdx, P(ClearFail, ops))));
    E4(Plain(PushR15), Plain(PushR14), Plain(PushRbx), Plain(PushRsi),
      B(SubRsp, 32, P(MovR15Rcx, P(MovR14Rdx, P(ClearFail, ops)))));
  }
}

/** How many bytes a block takes, exactly, and when the space reserved before emission is
    enough: always without multi-register transfers, and with them only for short lists. */
module Reservation {
  import opened Words
  import opened Cpu
  import opened Insn
  import opened Asm
  import opened Codegen
  import opened NativeRun
  import opened NativeData
  import opened NativeAccess
  import opened NativeBranch
  import opened Layout
  import Nvic
  import X86
  import Bus

  /** Bytes of a code sequence. */
  function Extent(c: Code): nat { |Flat(c)| }

  lemma X1(a: Asm, k: Code)
    ensures Extent(Then(a, k)) == Size(a) + Extent(k)
  {
    SizeIsLength(a);
  }

  lemma X2(a: Asm, b: Asm, k: Code)
    ensures Extent(Then(a, Then(b, k))) == Size(a) + Size(b) + Extent(k)
  {
    X1(b, k);
    X1(a, Then(b, k));
  }

  lemma X4(a: Asm, b: Asm, c: Asm, d: Asm, k: Code)
    ensures Extent(Then(a, Then(b, Then(c, Then(d, k))))) == Size(a) + Size(b) + Size(c) + Size(d) + Extent(k)
  {
    hide Extent, Size;
    X2(c, d, k);
    X2(a, b, Then(c, Then(d, k)));
  }

  lemma BitSizes()
    ensures Size(Plain(MovEsiEdx)) == 2 && Size(Plain(MovR10dEdx)) == 3 && Size(Plain(OrEsiR10d)) == 3
    ensures Size(Plain(OrR10dEsi)) == 3 && Size(Plain(MovzxR10dCl)) == 4 && Size(Plain(MovzxEdxAh)) == 3
    ensures Size(Plain(MovR11dEax)) == 3 && Size(Plain(MovEaxR11d)) == 3
  {
  }

  lemma SignBitSize(k: Code)
    ensures Extent(SignBit(k)) == 8 + Extent(k)
  {
    hide Extent;
    BitSizes();
    X2(Imm8(ShrEsi, 7), Imm8(ShlEsi, 31), k);
    X1(Plain(MovEsiEdx), B(ShrEsi, 7, B(ShlEsi, 31, k)));
  }

  lemma ZeroBitSize(k: Code)
    ensures Extent(ZeroBit(k)) == 21 + Extent(k)
  {
    hide Extent;
    BitSizes();
    X1(Plain(OrEsiR10d), k);
    X4(Plain(MovR10dEdx), Imm8(ShrR10d, 6), Imm32(AndR10d, 1), Imm8(ShlR10d, 30), P(OrEsiR10d, k));
  }

  lemma CarryBitSize(isSub: bool, k: Code)
    ensures Extent(CarryBit(isSub, k)) == (if isSub then 24 else 17) + Extent(k)
  {
    hide Extent;
    BitSizes();
    var shift := B(ShlR10d, 29, P(OrEsiR10d, k));
    X2(Imm8(ShlR10d, 29), Plain(OrEsiR10d), k);
    X1(Imm32(XorR10d, 1), shift);
    X2(Plain(MovR10dEdx), Imm32(AndR10d, 1), if isSub then I(XorR10d, 1, shift) else shift);
  }

  lemma OverflowBitSize(k: Code)
    ensures Extent(OverflowBit(k)) == 11 + Extent(k)
  {
    hide Extent;
    BitSizes();
    X2(Imm8(ShlR10d, 28), Plain(OrEsiR10d), k);
    X1(Plain(MovzxR10dCl), B(ShlR10d, 28, P(OrEsiR10d, k)));
  }

  lemma MergeSize(mask: u32, k: Code)
    ensures Extent(MergeApsr(mask, k)) == 24 + Extent(k)
  {
    hide Extent;
    BitSizes();
    X4(Disp(LdR10d, X86.APSR_OFF), Imm32(AndR10d, mask), Plain(OrR10dEsi), Disp(StR10d, X86.APSR_OFF), k);
  }

  lemma NzcvSize(isSub: bool, k: Code)
    ensures Extent(FlagsNzcvCode(isSub, k)) == (if isSub then 101 else 94) + Extent(k)
  {
    hide Extent, SignBit, ZeroBit, CarryBit, OverflowBit, MergeApsr;
    BitSizes();
    var k4 := MergeApsr(0x0FFF_FFFF, k);
    var k3 := OverflowBit(k4);
    var k2 := CarryBit(isSub, k3);
    var k1 := SignBit(ZeroBit(k2));
    MergeSize(0x0FFF_FFFF, k);
    OverflowBitSize(k4);
    CarryBitSize(isSub, k3);
    ZeroBitSize(k2);
    SignBitSize(ZeroBit(k2));
    X4(Plain(LahfAh), Plain(SetoCl), Plain(MovzxEdxAh), Plain(MovEaxR11d), k1);
    X1(Plain(MovR11dEax), P(LahfAh, P(SetoCl, P(MovzxEdxAh, P(MovEaxR11d, k1)))));
  }

  lemma NzSize(k: Code)
    ensures Extent(FlagsNzCode(k)) == 63 + Extent(k) && Extent(TestNz(k)) == 65 + Extent(k)
  {
    hide Extent, SignBit, ZeroBit, MergeApsr;
    BitSizes();
    var k2 := MergeApsr(0x3FFF_FFFF, k);
    var k1 := SignBit(ZeroBit(k2));
    MergeSize(0x3FFF_FFFF, k);
    ZeroBitSize(k2);
    SignBitSize(ZeroBit(k2));
    X4(Plain(MovR11dEax), Plain(LahfAh), Plain(MovzxEdxAh), Plain(MovEaxR11d), k1);
    X1(Plain(TestEaxEax), FlagsNzCode(k));
  }

  lemma MaskSize(n: Bus.Width, k: Code)
    ensures Extent(MaskEcx(n, k)) == (if n < 4 then 6 else 0) + Extent(k)
    ensures Extent(MaskR9d(n, k)) == (if n < 4 then 7 else 0) + Extent(k)
  {
    hide Extent;
    X1(Imm32(AndEcx, 0xFF), k);
    X1(Imm32(AndEcx, 0xFFFF), k);
    X1(Imm32(AndR9d, 0xFF), k);
    X1(Imm32(AndR9d, 0xFFFF), k);
  }

  /** A span is as long as it says. */
  lemma SpanExtent(c: Code, n: nat, k: Code)
    requires Span(c, n, k)
    ensures Extent(c) == n + Extent(k)
  {
    SkipFlat(c, n);
  }

  lemma LoadSize(env: Env, rd: Reg, n: Bus.Width, k: Code)
    ensures Extent(LoadFromEax(env, rd, n, k)) == (if n < 4 then 60 else 54) + Extent(k)
  {
    hide Extent, CommitLoad, ReadCallCode, MaskEcx, Skip;
    var k3 := CommitLoad(rd, k);
    var k2 := MaskEcx(n, k3);
    SpanCommitLoad(rd, k);
    SpanExtent(k3, 16, k);
    MaskSize(n, k3);
    SpanCallRead(env, n, k2);
    SpanExtent(ReadCallCode(env, n, k2), 29, k2);
    X2(Plain(MovRcxR14), Plain(MovEdxEax), ReadCallCode(env, n, k2));
    X1(Imm8(SubRsp, 16), P(MovRcxR14, P(MovEdxEax, ReadCallCode(env, n, k2))));
  }

  lemma StoreSize(env: Env, rd: Reg, n: Bus.Width, k: Code)
    ensures Extent(StoreFromEax(env, rd, n, k)) == (if n < 4 then 52 else 45) + Extent(k)
  {
    hide Extent, CommitStore, MaskR9d, Skip;
    var k4 := CommitStore(k);
    var k3 := Then(MovRaxQ(env.writeFn), P(CallRax, B(AddRsp, 16, k4)));
    var k2 := MaskR9d(n, k3);
    SpanCommitStore(k);
    SpanExtent(k4, 7, k);
    X2(MovRaxQ(env.writeFn), Plain(CallRax), B(AddRsp, 16, k4));
    X1(Imm8(AddRsp, 16), k4);
    MaskSize(n, k3);
    X4(Plain(MovRcxR14), Plain(MovEdxEax), Imm32(MovR8d, n), Disp(LdR9d, RegDisp(rd)), k2);
    X1(Imm8(SubRsp, 16), P(MovRcxR14, P(MovEdxEax, I(MovR8d, n, R(LdR9d, rd, k2)))));
  }

  function AddressBytes(a: Address): nat {
    match a
    case Based(_, imm) => if imm == 0 then 7 else 12
    case Fixed(_) => 5
    case Summed(_, _) => 16
  }

  lemma AddressSize(a: Address, k: Code)
    ensures Extent(AddressCode(a, k)) == AddressBytes(a) + Extent(k)
  {
    hide Extent;
    match a {
      case Based(rn, imm) =>
        X1(Imm32(AddEax, imm), k);
        X1(Disp(DispOp.LdEax, RegDisp(rn)), AddOffset(imm, k));
      case Fixed(v) => X1(Imm32(MovEax, v), k);
      case Summed(rn, rm) =>
        X1(Plain(OpAddEc), k);
        X2(Disp(DispOp.LdEax, RegDisp(rn)), Disp(DispOp.LdEcx, RegDisp(rm)), P(OpAddEc, k));
    }
  }

  function AccessBytes(t: Access): (n: nat)
    ensures n <= 76
  {
    AddressBytes(t.a) + if t.load then (if t.n < 4 then 60 else 54) else (if t.n < 4 then 52 else 45)
  }

  lemma AccessSize(env: Env, t: Access, k: Code)
    ensures Extent(AccessCode(env, t, k)) == AccessBytes(t) + Extent(k)
  {
    hide Extent, AddressCode, LoadFromEax, StoreFromEax;
    LoadSize(env, t.rd, t.n, k);
    StoreSize(env, t.rd, t.n, k);
    AddressSize(t.a, LoadFromEax(env, t.rd, t.n, k));
    AddressSize(t.a, StoreFromEax(env, t.rd, t.n, k));
  }

  /** One access, or two for the doubleword forms. */
  function MemoryBytes(i: Insn): (n: nat)
    ensures n <= 152
  {
    var ts := AccessesOf(i);
    if |ts| == 1 then AccessBytes(ts[0]) else if |ts| == 2 then AccessBytes(ts[0]) + AccessBytes(ts[1]) else 0
  }

  lemma MemorySize(env: Env, i: Insn, k: Code)
    requires IsMemory(i.op)
    ensures Extent(MemoryCode(env, i, k)) == MemoryBytes(i) + Extent(k)
  {
    hide Extent, AccessCode, MemoryCode, AccessBytes;
    MemoryCodeShape(env, i, k);
    var ts := AccessesOf(i);
    if |ts| == 1 {
      One(env, ts[0], k);
      AccessSize(env, ts[0], k);
    } else {
      Two(env, ts[0], ts[1], k);
      AccessSize(env, ts[1], k);
      AccessSize(env, ts[0], AccessCode(env, ts[1], k));
    }
  }

  lemma OpSizes(op: Arith, v: u32)
    ensures Size(Plain(RegOp(op))) == 2 && Size(Imm32(ConstOp(op), v)) == 5
  {
  }

  function ComputeBytes(sh: Shape): nat {
    match sh.src
    case FromReg(_) => if sh.op.ArMov? then 7 else 16
    case Const(_) => if sh.op.ArMov? then 5 else 12
  }

  function FlagBytes(sh: Shape): nat {
    match sh.upd
    case KeepFlags => 0
    case UpdateNz => if sh.op.ArMov? then 65 else 63
    case UpdateNzcv => if sh.op.ArSub? then 101 else 94
  }

  function DataBytes(i: Insn): (n: nat)
    ensures n <= 124
  {
    var sh := ShapeOf(i);
    ComputeBytes(sh) + FlagBytes(sh) + if sh.store then 7 else 0
  }

  lemma DataSize(i: Insn, k: Code)
    requires IsData(i.op)
    ensures Extent(DataCode(i, k)) == DataBytes(i) + Extent(k)
  {
    hide Extent, DataCode, ShapeOf, FlagsNzcvCode, FlagsNzCode, TestNz, RegOp, ConstOp;
    DataCodeShape(i, k);
    var sh := ShapeOf(i);
    X1(Disp(DispOp.StEax, RegDisp(i.rd)), k);
    var end := if sh.store then R(StEax, i.rd, k) else k;
    NzSize(end);
    NzcvSize(sh.op.ArSub?, end);
    ComputeSize(sh, UpdateCode(sh, end));
  }

  lemma ComputeSize(sh: Shape, k: Code)
    ensures Extent(ComputeCode(sh, k)) == ComputeBytes(sh) + Extent(k)
  {
    hide Extent, RegOp, ConstOp;
    match sh.src {
      case FromReg(j) =>
        OpSizes(sh.op, 0);
        X1(Disp(DispOp.LdEax, RegDisp(j)), k);
        X1(Plain(RegOp(sh.op)), k);
        X2(Disp(DispOp.LdEax, RegDisp(sh.rn)), Disp(DispOp.LdEcx, RegDisp(j)), P(RegOp(sh.op), k));
      case Const(v) =>
        OpSizes(sh.op, v);
        X1(Imm32(MovEax, v), k);
        X2(Disp(DispOp.LdEax, RegDisp(sh.rn)), Imm32(ConstOp(sh.op), v), k);
    }
  }

  lemma CondTestSize(cond: nat, k: Code)
    requires cond < 14
    ensures Extent(CondTest(cond, k)) == (if cond < 8 then 2 else if cond < 10 then 4 else 9) + Extent(k)
  {
    hide Extent, CondTest;
    CondTestCases(cond, k);
    TestSizes();
    if cond < 8 {
      X1(Imm8(TestAlImm, SimpleMask(cond)), k);
    } else if cond < 10 {
      X2(Imm8(AndAlImm, 6), Imm8(CmpAlImm, 2), k);
    } else {
      X4(Plain(MovAhAl), Imm8(ShrAh, 3), Plain(XorAlAh), Imm8(TestAlImm, if cond < 12 then 1 else 5), k);
    }
  }

  lemma TestSizes()
    ensures Size(Plain(MovAhAl)) == 2 && Size(Plain(XorAlAh)) == 2
  {
  }

  function BranchBytes(i: Insn): (n: nat)
    ensures n <= 49
  {
    if i.op.BUncond? then 11
    else if i.op.T32Bl? then 23
    else if i.cond < 8 then 39
    else if i.cond < 10 then 44
    else if i.cond < 14 then 49
    else 11
  }

  lemma BranchSize(i: Insn, k: Code)
    requires IsBranch(i.op)
    ensures Extent(BranchCode(i, k)) == BranchBytes(i) + Extent(k)
  {
    hide Extent, CondTest, CondJump, BCondCode;
    var target, fall := Add32(Add32(i.pc, 4), i.imm), Add32(i.pc, i.size);
    X1(StPc(target), k);
    X1(StPc(Nvic.Even(target)), k);
    X2(Imm32(MovEax, Nvic.SetThumb(fall)), Disp(DispOp.StEax, RegDisp(REG_LR)), Then(StPc(Nvic.Even(target)), k));
    if i.op.BCond? || i.op.T32BCond? {
      BCondSize(i, k);
    }
  }

  lemma BCondSize(i: Insn, k: Code)
    requires i.op.BCond? || i.op.T32BCond?
    ensures Extent(BCondCode(i, k)) == BranchBytes(i) + Extent(k)
  {
    hide Extent, CondTest, CondJump;
    var target, fall := Add32(Add32(i.pc, 4), i.imm), Add32(i.pc, i.size);
    X1(StPc(target), k);
    X1(StPc(fall), k);
    if i.cond < 14 {
      var jump := PickPc(i.cond, fall, target, k);
      X4(JccNear(CondJump(i.cond), 13), StPc(fall), JmpShort(11), StPc(target), k);
      BCondShape(i, k);
      CondTestSize(i.cond, jump);
      X1(Imm8(ShrAl, 4), CondTest(i.cond, jump));
      X1(LdAlApsrByte3, if i.cond >= 8 then B(ShrAl, 4, CondTest(i.cond, jump)) else CondTest(i.cond, jump));
    }
  }

  /* Multi-register transfers: the sums over the register list, by count. */

  /** A stored PC is loaded as a constant, which the fast path then pays for. */
  predicate StoresPc(t: Multi) { !t.load && REG_PC in t.regs }

  function Step(t: Multi): nat { if t.down then 5 else 0 }

  /** Bytes of one register's transfer through the bus helper. */
  function SlowUnit(t: Multi): nat { (if t.load then 67 else 58) + Step(t) }

  lemma {:induction false} SlowSumIs(t: Multi, j: nat)
    requires j <= 16
    ensures Count(t.regs, j) <= t.Words()
    ensures SlowSum(t, j) ==
      SlowUnit(t) * (t.Words() - Count(t.regs, j)) - (if StoresPc(t) && j < 16 then 1 else 0)
    decreases 16 - j
  {
    if j != 16 {
      hide SlowUnit;
      SlowSumIs(t, j + 1);
      var left := t.Words() - Count(t.regs, j + 1);
      assert Count(t.regs, j + 1) == Count(t.regs, j) + (if j in t.regs then 1 else 0);
      assert SlowUnit(t) * (left + 1) == SlowUnit(t) * left + SlowUnit(t);
      SlowSizeIs(t, j);
    }
  }

  lemma SlowSizeIs(t: Multi, j: Reg)
    ensures SlowSizeOf(t, j) == SlowUnit(t) - (if !t.load && j == REG_PC then 1 else 0)
  {
  }

  lemma {:induction false} FastSumIs(t: Multi, j: nat)
    requires j <= 16
    ensures Count(t.regs, j) <= t.Words()
    ensures FastSum(t, j) == 14 * (t.Words() - Count(t.regs, j)) + (if StoresPc(t) && j < 16 then 5 + Step(t) else 0)
    decreases 16 - j
  {
    if j != 16 {
      FastSumIs(t, j + 1);
      assert Count(t.regs, j + 1) == Count(t.regs, j) + (if j in t.regs then 1 else 0);
    }
  }

  lemma NoneBelow(regs: set<Reg>)
    ensures Count(regs, 0) == 0
  {
  }

  /** The slow path, by the length of the register list. */
  function SlowBytes(t: Multi): int {
    SlowUnit(t) * t.Words() - (if StoresPc(t) then 1 else 0) + (if t.wb then 19 else 0)
  }

  /** The fast path without the jump over the slow one. */
  function FastBytes(t: Multi): nat {
    23 + 14 * t.Words() + (if StoresPc(t) then 5 + Step(t) else 0) + (if t.wb then 19 else 0)
  }

  lemma BodiesAre(t: Multi)
    ensures SlowBody(t) == SlowBytes(t) && FastBody(t) == FastBytes(t)
  {
    hide Count;
    NoneBelow(t.regs);
    SlowSumIs(t, 0);
    FastSumIs(t, 0);
  }

  /** Bytes of a transfer once the start address is in eax, with an inlined region or without. */
  function MultiBytes(inlined: bool, t: Multi): int {
    var slow, fast := SlowBytes(t), FastBytes(t);
    var jump := if slow <= 127 then 2 else 5;
    if inlined && 7 + fast + jump <= 127 then 14 + fast + jump + slow else slow
  }

  lemma MultiSize(env: Env, t: Multi, k: Code)
    ensures Extent(MultiCode(env, t, k)) == MultiBytes(env.sram.Some?, t) + Extent(k)
  {
    hide Extent, SlowPath, Skip, SlowBody, FastBody, SlowBytes, FastBytes, BothPaths, AfterJb;
    BodiesAre(t);
    SpanSlowPath(env, t, k);
    SpanExtent(SlowPath(env, t, k), SlowBody(t), k);
    if env.sram.Some? && JbTarget(t) <= 127 {
      var s := env.sram.value;
      JumpsLand(env, s, t, k);
      SpanExtent(AfterJb(env, s, t, k), JbTarget(t), SlowPath(env, t, k));
      X2(Imm32(CmpEax, s.base), Jcc8(X86.CcB, JbTarget(t)), AfterJb(env, s, t, k));
    }
  }

  /** PUSH moves the stack pointer first; the others load their base, stepped down if need be. */
  function TransferBytes(inlined: bool, i: Insn): int {
    if i.op.Push? then
      if PushMulti(i).Words() == 0 then 0 else 19 + MultiBytes(inlined, PushMulti(i))
    else
      var t := if i.op.Pop? then PopMulti(i) else LdmStmMulti(i);
      if t.Words() == 0 then 0 else 7 + Step(t) + MultiBytes(inlined, t)
  }

  lemma PushSize(env: Env, t: Multi, k: Code)
    ensures Extent(PushCode(env, t, k)) ==
      (if t.Words() == 0 then 0 else 19 + MultiBytes(env.sram.Some?, t)) + Extent(k)
  {
    hide Extent, MultiCode, MultiBytes, Count;
    var multi := MultiCode(env, t, k);
    MultiSize(env, t, k);
    X1(Disp(DispOp.StEax, RegDisp(REG_SP)), multi);
    X2(Disp(DispOp.LdEax, RegDisp(REG_SP)), Imm32(SubEax, t.Len()), R(StEax, REG_SP, multi));
  }

  lemma LdmStmSize(env: Env, t: Multi, k: Code)
    ensures Extent(LdmStmCode(env, t, k)) ==
      (if t.Words() == 0 then 0 else 7 + Step(t) + MultiBytes(env.sram.Some?, t)) + Extent(k)
  {
    hide Extent, MultiCode, MultiBytes, Count;
    var multi := MultiCode(env, t, k);
    MultiSize(env, t, k);
    X1(Disp(DispOp.LdEax, RegDisp(t.base)), Down(t, multi));
    X1(Imm32(SubEax, t.Len()), multi);
  }

  lemma TransferSize(env: Env, i: Insn, k: Code)
    requires IsMulti(i.op)
    ensures Extent(OpCode(env, i, k)) == TransferBytes(env.sram.Some?, i) + Extent(k)
  {
    hide Extent, PushCode, LdmStmCode, MultiBytes, Count;
    if i.op.Push? {
      PushSize(env, PushMulti(i), k);
    } else if i.op.Pop? {
      LdmStmSize(env, PopMulti(i), k);
    } else {
      LdmStmSize(env, LdmStmMulti(i), k);
    }
  }

  /* One instruction, and a block. */

  /** Bytes emitted for an instruction; the only thing it takes from the environment is
      whether a region is inlined. */
  function OpBytes(inlined: bool, i: Insn): int {
    if IsData(i.op) then DataBytes(i)
    else if IsMemory(i.op) then MemoryBytes(i)
    else if IsMulti(i.op) then TransferBytes(inlined, i)
    else if IsBranch(i.op) then BranchBytes(i)
    else 0
  }

  lemma OpSize(env: Env, i: Insn, k: Code)
    ensures Extent(OpCode(env, i, k)) == OpBytes(env.sram.Some?, i) + Extent(k)
  {
    hide Extent, DataCode, MemoryCode, BranchCode, PushCode, LdmStmCode, DataBytes, MemoryBytes, BranchBytes,
         TransferBytes;
    if IsData(i.op) {
      DataSize(i, k);
    } else if IsMemory(i.op) {
      MemorySize(env, i, k);
    } else if IsMulti(i.op) {
      TransferSize(env, i, k);
    } else if IsBranch(i.op) {
      BranchSize(i, k);
    }
  }

  function OpsBytes(inlined: bool, ins: seq<Insn>): int
    decreases |ins|
  {
    if |ins| == 0 then 0 else OpBytes(inlined, ins[0]) + OpsBytes(inlined, ins[1..])
  }

  lemma {:induction false} OpsSize(env: Env, ins: seq<Insn>, k: Code)
    ensures Extent(OpsCode(env, ins, k)) == OpsBytes(env.sram.Some?, ins) + Extent(k)
    decreases |ins|
  {
    hide Extent, OpCode, OpBytes;
    if |ins| != 0 {
      OpsSize(env, ins[1..], k);
      OpSize(env, ins[0], OpsCode(env, ins[1..], k));
    }
  }

  lemma EpilogueSizes()
    ensures Size(Plain(TestBl)) == 2 && Size(Plain(MovAl1)) == 2 && Size(Plain(XorAlAl)) == 2
    ensures Size(Plain(RetIns)) == 1
    ensures Size(Plain(PopR15)) == 2 && Size(Plain(PopR14)) == 2 && Size(Plain(PopRbx)) == 1 && Size(Plain(PopRsi)) == 1
  {
  }

  lemma EpilogueSize(k: Code)
    ensures Extent(Epilogue(k)) == 38 + Extent(k)
  {
    hide Extent, Unwind;
    EpilogueSizes();
    var good := Unwind(P(MovAl1, P(RetIns, k)));
    var fail := Unwind(P(XorAlAl, P(RetIns, good)));
    X2(Plain(MovAl1), Plain(RetIns), k);
    UnwindSize(P(MovAl1, P(RetIns, k)));
    X2(Plain(XorAlAl), Plain(RetIns), good);
    UnwindSize(P(XorAlAl, P(RetIns, good)));
    X1(SetHalted, fail);
    X2(Plain(TestBl), Jcc8(X86.CcE, 21), Then(SetHalted, fail));
  }

  lemma UnwindSize(k: Code)
    ensures Extent(Unwind(k)) == 10 + Extent(k)
  {
    hide Extent;
    EpilogueSizes();
    X1(Plain(PopR15), k);
    X4(Imm8(AddRsp, 32), Plain(PopRsi), Plain(PopRbx), Plain(PopR14), P(PopR15, k));
  }

  lemma PrologueSizes()
    ensures Size(Plain(PushR15)) == 2 && Size(Plain(PushR14)) == 2 && Size(Plain(PushRbx)) == 1
    ensures Size(Plain(PushRsi)) == 1
    ensures Size(Plain(MovR15Rcx)) == 3 && Size(Plain(MovR14Rdx)) == 3 && Size(Plain(ClearFail)) == 2
  {
  }

  lemma PrologueSize(k: Code)
    ensures Extent(Prologue(P(ClearFail, k))) == 18 + Extent(k)
  {
    hide Extent;
    PrologueSizes();
    X1(Plain(ClearFail), k);
    X2(Plain(MovR15Rcx), Plain(MovR14Rdx), P(ClearFail, k));
    X1(Imm8(SubRsp, 32), P(MovR15Rcx, P(MovR14Rdx, P(ClearFail, k))));
    X4(Plain(PushR15), Plain(PushR14), Plain(PushRbx), Plain(PushRsi),
      B(SubRsp, 32, P(MovR15Rcx, P(MovR14Rdx, P(ClearFail, k)))));
  }

  /** The guard before emission asks for this much room. */
  function Reserved(n: nat): nat { 160 * n + 64 }

  /** Entry, exit, and the PC store of a block that does not end in a branch. */
  function FrameBytes(last: Insn): nat { if IsBranch(last.op) then 56 else 67 }

  /** The exact size of a block, and so the exact condition under which it fits the space
      reserved for it: the instructions' bytes and the frame against the guard's formula. */
  lemma BlockSize(env: Env, ins: seq<Insn>)
    requires |ins| > 0
    ensures |Flat(BlockCode(env, ins, End))| == OpsBytes(env.sram.Some?, ins) + FrameBytes(ins[|ins| - 1])
    ensures |Flat(BlockCode(env, ins, End))| <= Reserved(|ins|) <==>
      OpsBytes(env.sram.Some?, ins) <= 160 * |ins| + 64 - FrameBytes(ins[|ins| - 1])
  {
    hide Extent, OpsCode, Epilogue, Prologue, OpsBytes;
    var last := ins[|ins| - 1];
    EpilogueSize(End);
    X1(StPc(Add32(last.pc, last.size)), Epilogue(End));
    OpsSize(env, ins, FallThrough(last, Epilogue(End)));
    PrologueSize(OpsCode(env, ins, FallThrough(last, Epilogue(End))));
    EmptyExtent(BlockCode(env, ins, End));
  }

  lemma EmptyExtent(c: Code)
    ensures Extent(End) == 0 && Extent(c) == |Flat(c)|
  {
  }

  predicate NoMulti(ins: seq<Insn>) {
    forall j :: 0 <= j < |ins| ==> !IsMulti(ins[j].op)
  }

  lemma {:induction false} PlainOpsBytes(inlined: bool, ins: seq<Insn>)
    requires NoMulti(ins)
    ensures OpsBytes(inlined, ins) <= 152 * |ins|
    decreases |ins|
  {
    hide DataBytes, MemoryBytes, BranchBytes, TransferBytes;
    if |ins| != 0 {
      PlainOpsBytes(inlined, ins[1..]);
    }
  }

  /** A block without multi-register transfers fits the reservation: once the guard has
      passed, no byte is dropped at the end of the buffer. The prologue, epilogue and PC
      store alone take three bytes more than the constant part; the instructions' share
      always has them to spare. */
  lemma ReservationSuffices(env: Env, ins: seq<Insn>)
    requires |ins| > 0 && NoMulti(ins)
    ensures |Flat(BlockCode(env, ins, End))| <= Reserved(|ins|)
  {
    hide BlockCode, Flat, OpsBytes;
    BlockSize(env, ins);
    PlainOpsBytes(env.sram.Some?, ins);
  }

  /* The reservation does not cover the multi-register transfers. */

  /** When a transfer is too long for a one-instruction block, by its register list. With
      the flat region inlined: PUSH of two, POP of one, LDM or STM of two, or of one with
      writeback unless it is an ascending store of another register than the PC. Without
      it: PUSH of three, POP of two, LDM or STM of three, or LDM of two with writeback. */
  predicate Outgrows(inlined: bool, i: Insn) {
    if i.op.Push? then PushMulti(i).Words() >= (if inlined then 2 else 3)
    else if i.op.Pop? then PopMulti(i).Words() >= (if inlined then 1 else 2)
    else
      var t := LdmStmMulti(i);
      if inlined then t.Words() >= 2 || (t.Words() == 1 && t.wb && (t.load || t.down || REG_PC in t.regs))
      else t.Words() >= 3 || (t.Words() == 2 && t.load && t.wb)
  }

  lemma {:induction false} SomeListed(regs: set<Reg>, k: nat)
    requires k <= 16 && Count(regs, k) == 0
    ensures forall j: Reg :: j < k ==> j !in regs
    decreases k
  {
    if k != 0 {
      SomeListed(regs, k - 1);
    }
  }

  /** A one-instruction block holding a transfer outgrows the space reserved for it exactly
      in these cases, so a short PUSH or POP emitted into an almost full buffer is cut off. */
  lemma TransferOutgrowsReservation(env: Env, i: Insn)
    requires IsMulti(i.op)
    ensures |Flat(BlockCode(env, [i], End))| > Reserved(1) <==> Outgrows(env.sram.Some?, i)
  {
    hide BlockCode, Flat, OpsBytes, Count;
    BlockSize(env, [i]);
    OneOp(env.sram.Some?, i);
    OverLimit(env.sram.Some?, i);
  }

  lemma OneOp(inlined: bool, i: Insn)
    ensures OpsBytes(inlined, [i]) == OpBytes(inlined, i)
  {
    hide OpBytes;
    assert [i][1..] == [];
  }

  lemma OverLimit(inlined: bool, i: Insn)
    requires IsMulti(i.op)
    ensures TransferBytes(inlined, i) > 157 <==> Outgrows(inlined, i)
  {
    hide Count;
    SomeListedIf(LdmStmMulti(i).regs);
  }

  lemma SomeListedIf(regs: set<Reg>)
    ensures Count(regs, 16) == 0 ==> forall j: Reg :: j !in regs
  {
    if Count(regs, 16) == 0 {
      SomeListed(regs, 16);
    }
  }
}

/** The code generator: the instruction sequence emitted for each supported opcode.

    Every emitter is written in continuation style: it takes the code that will
    follow and returns that code with its own instructions in front, so an emitted
    jump and the place it lands on are both visible in one value. */
module Codegen {
  import opened Words
  import opened Cpu
  import opened Insn
  import opened Nvic
  import opened Asm
  import X86
  import Bus

  datatype Code = End | Then(a: Asm, k: Code)

  function Flat(c: Code): seq<u8> {
    match c
    case End => []
    case Then(a, k) => Bytes(a) + Flat(k)
  }

  /** What the generator knows about the host when it compiles: the helper addresses and
      the flat region at 0x20000000, if there is one. */
  datatype Sram = Sram(base: u32, size: u32, buf: u64)
  datatype Env = Env(readFn: u64, writeFn: u64, sram: Option<Sram>)

  const SRAM_BASE: u32 := 0x2000_0000

  /* One instruction in front of the rest. */

  function P(p: PlainOp, k: Code): Code { Then(Plain(p), k) }
  function I(o: ImmOp, v: u32, k: Code): Code { Then(Imm32(o, v), k) }
  function B(b: ByteOp, n: u8, k: Code): Code { Then(Imm8(b, n), k) }
  function D(d: DispOp, v: u32, k: Code): Code { Then(Disp(d, v), k) }
  function R(d: DispOp, r: Reg, k: Code): Code { Then(Disp(d, RegDisp(r)), k) }

  /* Flags. */

  /** N: bit 7 of AH to bit 31 of esi. */
  function SignBit(k: Code): Code {
    P(MovEsiEdx, B(ShrEsi, 7, B(ShlEsi, 31, k)))
  }

  /** Z: bit 6 of AH to bit 30. */
  function ZeroBit(k: Code): Code {
    P(MovR10dEdx, B(ShrR10d, 6, I(AndR10d, 1, B(ShlR10d, 30, P(OrEsiR10d, k)))))
  }

  /** C: bit 0 of AH to bit 29, inverted for a subtraction (ARM carry is no borrow). */
  function CarryBit(isSub: bool, k: Code): Code {
    var shift := B(ShlR10d, 29, P(OrEsiR10d, k));
    P(MovR10dEdx, I(AndR10d, 1, if isSub then I(XorR10d, 1, shift) else shift))
  }

  /** V: cl to bit 28. */
  function OverflowBit(k: Code): Code {
    P(MovzxR10dCl, B(ShlR10d, 28, P(OrEsiR10d, k)))
  }

  /** apsr = (apsr & mask) | esi */
  function MergeApsr(mask: u32, k: Code): Code {
    D(LdR10d, X86.APSR_OFF, I(AndR10d, mask, P(OrR10dEsi, D(StR10d, X86.APSR_OFF, k))))
  }

  function FlagsNzcvCode(isSub: bool, k: Code): Code {
    P(MovR11dEax, P(LahfAh, P(SetoCl, P(MovzxEdxAh, P(MovEaxR11d,
      SignBit(ZeroBit(CarryBit(isSub, OverflowBit(MergeApsr(0x0FFF_FFFF, k))))))))))
  }

  function FlagsNzCode(k: Code): Code {
    P(MovR11dEax, P(LahfAh, P(MovzxEdxAh, P(MovEaxR11d,
      SignBit(ZeroBit(MergeApsr(0x3FFF_FFFF, k)))))))
  }

  /** test eax, eax before an NZ update */
  function TestNz(k: Code): Code { P(TestEaxEax, FlagsNzCode(k)) }

  /* Memory accesses through the bus helpers. */

  function MaskEcx(n: Bus.Width, k: Code): Code {
    if n == 1 then I(AndEcx, 0xFF, k) else if n == 2 then I(AndEcx, 0xFFFF, k) else k
  }

  function MaskR9d(n: Bus.Width, k: Code): Code {
    if n == 1 then I(AndR9d, 0xFF, k) else if n == 2 then I(AndR9d, 0xFFFF, k) else k
  }

  /** al holds the helper's result: on failure set bl and skip the store of ecx. */
  function CommitLoad(rd: Reg, k: Code): Code {
    P(TestAl, Then(Jcc8(X86.CcNE, 5), P(OrBl1, Then(JmpShort(7), R(StEcx, rd, k)))))
  }

  function CommitStore(k: Code): Code {
    P(TestAl, Then(Jcc8(X86.CcNE, 3), P(OrBl1, k)))
  }

  function ReadCallCode(env: Env, n: Bus.Width, k: Code): Code {
    I(MovR8d, n, P(LeaR9Rsp0, Then(MovRaxQ(env.readFn), P(CallRax, P(MovEcxRsp0, B(AddRsp, 16, k))))))
  }

  function LoadFromEax(env: Env, rd: Reg, n: Bus.Width, k: Code): Code {
    B(SubRsp, 16, P(MovRcxR14, P(MovEdxEax,
      ReadCallCode(env, n, MaskEcx(n, CommitLoad(rd, k))))))
  }

  function StoreFromEax(env: Env, rd: Reg, n: Bus.Width, k: Code): Code {
    B(SubRsp, 16, P(MovRcxR14, P(MovEdxEax, I(MovR8d, n, R(LdR9d, rd, MaskR9d(n,
      Then(MovRaxQ(env.writeFn), P(CallRax, B(AddRsp, 16, CommitStore(k))))))))))
  }

  function AddOffset(imm: u32, k: Code): Code {
    if imm == 0 then k else I(AddEax, imm, k)
  }

  function LoadCode(env: Env, rd: Reg, rn: Reg, imm: u32, n: Bus.Width, k: Code): Code {
    R(LdEax, rn, AddOffset(imm, LoadFromEax(env, rd, n, k)))
  }

  function StoreCode(env: Env, rd: Reg, rn: Reg, imm: u32, n: Bus.Width, k: Code): Code {
    R(LdEax, rn, AddOffset(imm, StoreFromEax(env, rd, n, k)))
  }

  /* Multiple transfers: PUSH, POP, LDM, STM. */

  /** A transfer as native code sees it: base register, direction, and the word stored for PC. */
  datatype Multi = Multi(load: bool, base: Reg, down: bool, wb: bool, regs: set<Reg>, pcWord: u32) {
    function Words(): nat { Count(regs, 16) }
    function Len(): u32 { 4 * Count(regs, 16) }
  }

  /** Step the base down again for a decrement-before transfer. */
  function Down(t: Multi, k: Code): Code {
    if t.down then I(SubEax, t.Len(), k) else k
  }

  function FastOne(t: Multi, j: Reg, off: u32, k: Code): Code {
    if t.load then D(LdR11Ecx, off, R(StEcx, j, k))
    else if j == REG_PC then I(MovEax, t.pcWord, D(StR11Eax, off, R(LdEax, t.base, Down(t, k))))
    else R(LdEcx, j, D(StR11Ecx, off, k))
  }

  function FastLoop(t: Multi, j: nat, off: u32, k: Code): Code
    requires j <= 16
    decreases t, 16 - j
  {
    if j == 16 then k
    else if j !in t.regs then FastLoop(t, j + 1, off, k)
    else FastOne(t, j, off, FastLoop(t, j + 1, Add32(off, 4), k))
  }

  /** One register through the bus helper; the base is reloaded because the call clobbers rax. */
  function SlowOne(env: Env, t: Multi, j: Reg, off: u32, k: Code): Code {
    R(LdEax, t.base, Down(t, B(SubRsp, 16, P(MovRcxR14, P(MovEdxEax, I(AddEdx, off,
      if t.load then ReadCallCode(env, 4, CommitLoad(j, k))
      else I(MovR8d, 4, SlowSource(t, j, Then(MovRaxQ(env.writeFn), P(CallRax, B(AddRsp, 16, CommitStore(k))))))))))))
  }

  function SlowSource(t: Multi, j: Reg, k: Code): Code {
    if j == REG_PC then I(MovR9d, t.pcWord, k) else R(LdR9d, j, k)
  }

  function SlowLoop(env: Env, t: Multi, j: nat, off: u32, k: Code): Code
    requires j <= 16
    decreases t, 16 - j
  {
    if j == 16 then k
    else if j !in t.regs then SlowLoop(env, t, j + 1, off, k)
    else SlowOne(env, t, j, off, SlowLoop(env, t, j + 1, Add32(off, 4), k))
  }

  function WritebackCode(t: Multi, k: Code): Code {
    if !t.wb then k
    else R(LdEax, t.base, I(if t.down then SubEax else AddEax, t.Len(), R(StEax, t.base, k)))
  }

  /* Sizes computed before emission, as sums over the register list. */

  function FastSizeOf(t: Multi, j: Reg): nat {
    if t.load then 14 else if j == REG_PC then (if t.down then 24 else 19) else 14
  }

  function SlowSizeOf(t: Multi, j: Reg): nat {
    7 + (if t.down then 5 else 0) + (if t.load then 60 else if j == REG_PC then 50 else 51)
  }

  function FastSum(t: Multi, j: nat): nat
    requires j <= 16
    decreases t, 16 - j
  {
    if j == 16 then 0 else (if j in t.regs then FastSizeOf(t, j) else 0) + FastSum(t, j + 1)
  }

  function SlowSum(t: Multi, j: nat): nat
    requires j <= 16
    decreases t, 16 - j
  {
    if j == 16 then 0 else (if j in t.regs then SlowSizeOf(t, j) else 0) + SlowSum(t, j + 1)
  }

  function FastBody(t: Multi): nat { 23 + FastSum(t, 0) + (if t.wb then 19 else 0) }
  function SlowBody(t: Multi): nat { SlowSum(t, 0) + (if t.wb then 19 else 0) }
  function JmpSize(t: Multi): nat { if SlowBody(t) <= 127 then 2 else 5 }
  function JaTarget(t: Multi): nat { FastBody(t) + JmpSize(t) }
  function JbTarget(t: Multi): nat { 7 + FastBody(t) + JmpSize(t) }

  function SlowPath(env: Env, t: Multi, k: Code): Code {
    SlowLoop(env, t, 0, 0, WritebackCode(t, k))
  }

  /** The closing jump of the fast path, over the slow one. */
  function JumpOver(t: Multi, k: Code): Code
    requires SlowBody(t) < 0x8000_0000
  {
    if SlowBody(t) <= 127 then Then(JmpShort(SlowBody(t)), k) else Then(JmpNear(SlowBody(t)), k)
  }

  lemma {:induction false} SlowSumBound(t: Multi, j: nat)
    requires j <= 16
    ensures SlowSum(t, j) <= 72 * (16 - j)
    decreases 16 - j
  {
    if j != 16 {
      SlowSumBound(t, j + 1);
    }
  }

  /** r11 = address of the guest word at eax in the SRAM buffer. */
  function FastSetup(s: Sram, k: Code): Code {
    Then(MovR10Q(s.buf), P(MovR11dEax, P(AddR11R10, I(SubR11, s.base, k))))
  }

  /** Highest start address for which the whole transfer stays in SRAM. */
  function HighestStart(s: Sram, t: Multi): u32 {
    Sub32(Add32(s.base, s.size), t.Len())
  }

  function FastPath(s: Sram, t: Multi, k: Code): Code {
    FastSetup(s, FastLoop(t, 0, 0, WritebackCode(t, k)))
  }

  function BothPaths(env: Env, s: Sram, t: Multi, k: Code): Code
    requires JbTarget(t) <= 127
  {
    SlowSumBound(t, 0);
    I(CmpEax, s.base, Then(Jcc8(X86.CcB, JbTarget(t)),
      I(CmpEax, HighestStart(s, t), Then(Jcc8(X86.CcA, JaTarget(t)),
        FastPath(s, t, JumpOver(t, SlowPath(env, t, k)))))))
  }

  /** Entered with the lowest address in eax. */
  function MultiCode(env: Env, t: Multi, k: Code): Code {
    if env.sram.Some? && JbTarget(t) <= 127 then BothPaths(env, env.sram.value, t, k)
    else SlowPath(env, t, k)
  }

  function PushMulti(i: Insn): Multi {
    Multi(false, REG_SP, false, false, i.regs - {REG_PC}, 0)
  }
  function PopMulti(i: Insn): Multi {
    Multi(true, REG_SP, false, true, i.regs, 0)
  }
  function LdmStmMulti(i: Insn): Multi {
    Multi(i.op.T32Ldm?, i.rn, !i.add, i.writeback, i.regs, Add32(i.pc, 4))
  }

  function PushCode(env: Env, t: Multi, k: Code): Code {
    if t.Words() == 0 then k
    else R(LdEax, REG_SP, I(SubEax, t.Len(), R(StEax, REG_SP, MultiCode(env, t, k))))
  }

  function LdmStmCode(env: Env, t: Multi, k: Code): Code {
    if t.Words() == 0 then k
    else R(LdEax, t.base, Down(t, MultiCode(env, t, k)))
  }

  /* Branches. */

  /** The flag test of a conditional branch and the jcc taken when the condition holds;
      al is the top byte of the APSR, shifted down a nibble for the composite conditions. */
  function CondTest(cond: nat, k: Code): Code {
    match cond
    case 0x0 => B(TestAlImm, 0x40, k)
    case 0x1 => B(TestAlImm, 0x40, k)
    case 0x2 => B(TestAlImm, 0x20, k)
    case 0x3 => B(TestAlImm, 0x20, k)
    case 0x4 => B(TestAlImm, 0x80, k)
    case 0x5 => B(TestAlImm, 0x80, k)
    case 0x6 => B(TestAlImm, 0x10, k)
    case 0x7 => B(TestAlImm, 0x10, k)
    case 0x8 => B(AndAlImm, 0x06, B(CmpAlImm, 0x02, k))
    case 0x9 => B(AndAlImm, 0x06, B(CmpAlImm, 0x02, k))
    case 0xA => P(MovAhAl, B(ShrAh, 3, P(XorAlAh, B(TestAlImm, 0x01, k))))
    case 0xB => P(MovAhAl, B(ShrAh, 3, P(XorAlAh, B(TestAlImm, 0x01, k))))
    case 0xC => P(MovAhAl, B(ShrAh, 3, P(XorAlAh, B(TestAlImm, 0x05, k))))
    case _ => P(MovAhAl, B(ShrAh, 3, P(XorAlAh, B(TestAlImm, 0x05, k))))
  }

  function CondJump(cond: nat): X86.Cc {
    if cond == 0x8 || cond == 0xA || cond == 0xC then X86.CcE
    else if cond == 0x9 || cond == 0xB || cond == 0xD then X86.CcNE
    else if cond % 2 == 0 then X86.CcNE else X86.CcE
  }

  function BCondCode(i: Insn, k: Code): Code {
    var target := Add32(Add32(i.pc, 4), i.imm);
    var fall := Add32(i.pc, i.size);
    if i.cond == 0xE then Then(StPc(target), k)
    else if i.cond >= 0xF then Then(StPc(fall), k)
    else
      var jump := Then(JccNear(CondJump(i.cond), 13), Then(StPc(fall), Then(JmpShort(11), Then(StPc(target), k))));
      Then(LdAlApsrByte3, if i.cond >= 0x8 then B(ShrAl, 4, CondTest(i.cond, jump)) else CondTest(i.cond, jump))
  }

  /* One instruction. */

  /** Result in eax, flags updated, eax stored. */
  function AluRegCode(i: Insn, op: PlainOp, k: Code): Code {
    R(LdEax, i.rn, R(LdEcx, i.rm, P(op, k)))
  }

  function AluImmCode(i: Insn, op: ImmOp, k: Code): Code {
    R(LdEax, i.rn, I(op, i.imm, k))
  }

  function IfNzcv(on: bool, isSub: bool, k: Code): Code {
    if on then FlagsNzcvCode(isSub, k) else k
  }

  function IfNz(on: bool, k: Code): Code {
    if on then FlagsNzCode(k) else k
  }

  function IfTestNz(on: bool, k: Code): Code {
    if on then TestNz(k) else k
  }

  function DataCode(i: Insn, k: Code): Code {
    var st := R(StEax, i.rd, k);
    match i.op
    case MovImm => I(MovEax, i.imm, TestNz(st))
    case T32MovImm => I(MovEax, i.imm, IfTestNz(i.setFlags, st))
    case T32Movw => I(MovEax, i.imm, st)
    case MovReg => R(LdEax, i.rm, IfTestNz(i.setFlags, st))
    case AddReg => AluRegCode(i, OpAddEc, FlagsNzcvCode(false, st))
    case SubReg => AluRegCode(i, OpSubEc, FlagsNzcvCode(true, st))
    case AddImm3 => AluImmCode(i, AddEax, FlagsNzcvCode(false, st))
    case AddImm8 => AluImmCode(i, AddEax, FlagsNzcvCode(false, st))
    case SubImm3 => AluImmCode(i, SubEax, FlagsNzcvCode(true, st))
    case SubImm8 => AluImmCode(i, SubEax, FlagsNzcvCode(true, st))
    case T32AddImm => AluImmCode(i, AddEax, IfNzcv(i.setFlags, false, st))
    case T32SubImm => AluImmCode(i, SubEax, IfNzcv(i.setFlags, true, st))
    case T32Addw => AluImmCode(i, AddEax, st)
    case T32Subw => AluImmCode(i, SubEax, st)
    case AndReg => AluRegCode(i, OpAndEc, FlagsNzCode(st))
    case OrrReg => AluRegCode(i, OpOrEc, FlagsNzCode(st))
    case EorReg => AluRegCode(i, OpXorEc, FlagsNzCode(st))
    case T32AndImm => AluImmCode(i, AndEax, IfNz(i.setFlags, st))
    case T32OrrImm => AluImmCode(i, OrEax, IfNz(i.setFlags, st))
    case T32EorImm => AluImmCode(i, XorEax, IfNz(i.setFlags, st))
    case CmpImm => AluImmCode(i, SubEax, FlagsNzcvCode(true, k))
    case T32CmpImm => AluImmCode(i, SubEax, FlagsNzcvCode(true, k))
    case CmpReg => AluRegCode(i, OpSubEc, FlagsNzcvCode(true, k))
    case CmpRegT2 => AluRegCode(i, OpSubEc, FlagsNzcvCode(true, k))
    case T32CmpReg => AluRegCode(i, OpSubEc, FlagsNzcvCode(true, k))
    case CmnReg => AluRegCode(i, OpAddEc, FlagsNzcvCode(false, k))
    case T32CmnReg => AluRegCode(i, OpAddEc, FlagsNzcvCode(false, k))
    case T32CmnImm => AluImmCode(i, AddEax, FlagsNzcvCode(false, k))
    case TstReg => AluRegCode(i, OpAndEc, FlagsNzCode(k))
    case _ => k
  }

  function MemoryCode(env: Env, i: Insn, k: Code): Code {
    match i.op
    case LdrImm => LoadCode(env, i.rd, i.rn, i.imm, 4, k)
    case T32LdrImm => LoadCode(env, i.rd, i.rn, i.imm, 4, k)
    case LdrbImm => LoadCode(env, i.rd, i.rn, i.imm, 1, k)
    case T32LdrbImm => LoadCode(env, i.rd, i.rn, i.imm, 1, k)
    case LdrhImm => LoadCode(env, i.rd, i.rn, i.imm, 2, k)
    case T32LdrhImm => LoadCode(env, i.rd, i.rn, i.imm, 2, k)
    case StrImm => StoreCode(env, i.rd, i.rn, i.imm, 4, k)
    case T32StrImm => StoreCode(env, i.rd, i.rn, i.imm, 4, k)
    case StrbImm => StoreCode(env, i.rd, i.rn, i.imm, 1, k)
    case T32StrbImm => StoreCode(env, i.rd, i.rn, i.imm, 1, k)
    case StrhImm => StoreCode(env, i.rd, i.rn, i.imm, 2, k)
    case T32StrhImm => StoreCode(env, i.rd, i.rn, i.imm, 2, k)
    case LdrSp => LoadCode(env, i.rd, REG_SP, i.imm, 4, k)
    case StrSp => StoreCode(env, i.rd, REG_SP, i.imm, 4, k)
    case LdrLit => I(MovEax, LiteralAddress(i), LoadFromEax(env, i.rd, 4, k))
    case T32LdrLit => I(MovEax, LiteralAddress(i), LoadFromEax(env, i.rd, 4, k))
    case LdrReg => AluRegCode(i, OpAddEc, LoadFromEax(env, i.rd, 4, k))
    case T32LdrReg => AluRegCode(i, OpAddEc, LoadFromEax(env, i.rd, 4, k))
    case StrReg => AluRegCode(i, OpAddEc, StoreFromEax(env, i.rd, 4, k))
    case T32StrReg => AluRegCode(i, OpAddEc, StoreFromEax(env, i.rd, 4, k))
    case T32LdrdImm => LoadCode(env, i.rd, i.rn, i.imm, 4, LoadCode(env, i.rs, i.rn, Add32(i.imm, 4), 4, k))
    case T32StrdImm => StoreCode(env, i.rd, i.rn, i.imm, 4, StoreCode(env, i.rs, i.rn, Add32(i.imm, 4), 4, k))
    case _ => k
  }

  /** The literal address is computed when the code is generated. */
  function LiteralAddress(i: Insn): u32 {
    Add32(Aligned(Add32(i.pc, 4)), i.imm)
  }

  predicate IsData(op: Op) {
    op.MovImm? || op.T32MovImm? || op.T32Movw? || op.MovReg? || op.AddReg? || op.SubReg? || op.AddImm3? ||
    op.AddImm8? || op.SubImm3? || op.SubImm8? || op.T32AddImm? || op.T32SubImm? || op.T32Addw? || op.T32Subw? ||
    op.AndReg? || op.OrrReg? || op.EorReg? || op.T32AndImm? || op.T32OrrImm? || op.T32EorImm? ||
    op.CmpImm? || op.T32CmpImm? || op.CmpReg? || op.CmpRegT2? || op.T32CmpReg? || op.CmnReg? || op.T32CmnReg? ||
    op.T32CmnImm? || op.TstReg?
  }

  predicate IsMemory(op: Op) {
    op.LdrImm? || op.T32LdrImm? || op.LdrbImm? || op.T32LdrbImm? || op.LdrhImm? || op.T32LdrhImm? ||
    op.StrImm? || op.T32StrImm? || op.StrbImm? || op.T32StrbImm? || op.StrhImm? || op.T32StrhImm? ||
    op.LdrSp? || op.StrSp? || op.LdrLit? || op.T32LdrLit? || op.LdrReg? || op.T32LdrReg? || op.StrReg? ||
    op.T32StrReg? || op.T32LdrdImm? || op.T32StrdImm?
  }

  predicate IsMulti(op: Op) { op.Push? || op.Pop? || op.T32Ldm? || op.T32Stm? }

  predicate IsBranch(op: Op) { op.BCond? || op.T32BCond? || op.BUncond? || op.T32Bl? }

  predicate Supports(op: Op) {
    IsData(op) || IsMemory(op) || IsMulti(op) || IsBranch(op) || op.Nop? || op.T32Nop?
  }

  /** Forms of a supported opcode the emitters do not implement. */
  predicate NativeOk(i: Insn) {
    if i.op.T32LdrImm? || i.op.T32StrImm? || i.op.T32LdrbImm? || i.op.T32StrbImm? || i.op.T32LdrhImm? ||
       i.op.T32StrhImm? || i.op.T32LdrdImm? || i.op.T32StrdImm?
    then i.add && i.index && !i.writeback
    else if i.op.Pop? || i.op.T32Ldm? then REG_PC !in i.regs
    else true
  }

  function BranchCode(i: Insn, k: Code): Code {
    var target := Add32(Add32(i.pc, 4), i.imm);
    if i.op.BUncond? then Then(StPc(target), k)
    else if i.op.T32Bl? then
      I(MovEax, SetThumb(Add32(i.pc, i.size)), R(StEax, REG_LR, Then(StPc(Even(target)), k)))
    else BCondCode(i, k)
  }

  function OpCode(env: Env, i: Insn, k: Code): Code {
    if IsData(i.op) then DataCode(i, k)
    else if IsMemory(i.op) then MemoryCode(env, i, k)
    else if i.op.Push? then PushCode(env, PushMulti(i), k)
    else if i.op.Pop? then LdmStmCode(env, PopMulti(i), k)
    else if IsMulti(i.op) then LdmStmCode(env, LdmStmMulti(i), k)
    else if IsBranch(i.op) then BranchCode(i, k)
    else k
  }

  /* A whole block. */

  function Prologue(k: Code): Code {
    P(PushR15, P(PushR14, P(PushRbx, P(PushRsi, B(SubRsp, 32, P(MovR15Rcx, P(MovR14Rdx, k)))))))
  }

  function Unwind(k: Code): Code {
    B(AddRsp, 32, P(PopRsi, P(PopRbx, P(PopR14, P(PopR15, k)))))
  }

  /** bl set: mark the core halted and return false; otherwise return true. */
  function Epilogue(k: Code): Code {
    P(TestBl, Then(Jcc8(X86.CcE, 21),
      Then(SetHalted, Unwind(P(XorAlAl, P(RetIns, Unwind(P(MovAl1, P(RetIns, k)))))))))
  }

  function OpsCode(env: Env, ins: seq<Insn>, k: Code): Code {
    if |ins| == 0 then k else OpCode(env, ins[0], OpsCode(env, ins[1..], k))
  }

  /** Branches write the PC themselves; any other last instruction falls through. */
  function FallThrough(last: Insn, k: Code): Code {
    if IsBranch(last.op) then k else Then(StPc(Add32(last.pc, last.size)), k)
  }

  function BlockCode(env: Env, ins: seq<Insn>, k: Code): Code
    requires |ins| > 0
  {
    Prologue(P(ClearFail, OpsCode(env, ins, FallThrough(ins[|ins| - 1], Epilogue(k)))))
  }
}

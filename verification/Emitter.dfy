/** The code generator proper: emitters that append bytes to a fixed buffer, dropping
    what does not fit, proved to append the described code. */
module Emitter {
  import opened Words
  import opened Cpu
  import opened Insn
  import opened Asm
  import opened Codegen
  import opened NativeData
  import opened NativeAccess
  import opened NativeBranch
  import opened Reservation
  import Layout
  import Nvic
  import X86
  import Bus

  /** The whole code of a block stands in the buffer, from start on. */
  predicate Placed(buffer: seq<u8>, env: Env, ins: seq<Insn>, start: nat)
    requires |ins| > 0
  {
    var code := Flat(BlockCode(env, ins, End));
    start + |code| <= |buffer| && buffer[start..start + |code|] == code
  }

  /** Appending leaves what is there in place. */
  lemma PlacedKept(buffer: seq<u8>, more: seq<u8>, env: Env, ins: seq<Insn>, start: nat)
    requires |ins| > 0 && buffer <= more && Placed(buffer, env, ins, start)
    ensures Placed(more, env, ins, start)
  {
    hide Flat, BlockCode;
    var code := Flat(BlockCode(env, ins, End));
    assert more[start..start + |code|] == buffer[start..start + |code|];
  }

  class CodeBuffer {
    var bytes: array<u8>
    var used: nat
    /** Everything the emitters appended, including what found no room. */
    ghost var written: seq<u8>

    /** The buffer holds as much of what was appended as it has room for. */
    ghost predicate Valid()
      reads this, bytes
    {
      used == Min(|written|, bytes.Length) && bytes[..used] == written[..used]
    }

    constructor (capacity: nat)
      ensures Valid() && fresh(bytes) && bytes.Length == capacity && written == []
    {
      bytes := new u8[capacity](_ => 0);
      used := 0;
      written := [];
    }

    method EmitB(b: u8)
      requires Valid()
      modifies this, bytes
      ensures Valid() && bytes == old(bytes)
      ensures written == old(written) + [b]
    {
      if used < bytes.Length {
        bytes[used] := b;
        used := used + 1;
      }
      written := written + [b];
    }

    /** One instruction, in front of code k still to come. */
    method Emit(a: Asm, ghost k: Code)
      requires Valid()
      modifies this, bytes
      ensures Valid() && bytes == old(bytes)
      ensures written + Flat(k) == old(written) + Flat(Then(a, k))
    {
      hide Bytes;
      var s := Bytes(a);
      for j := 0 to |s|
        invariant Valid() && bytes == old(bytes)
        invariant written == old(written) + s[..j]
      {
        EmitB(s[j]);
        assert s[..j] + [s[j]] == s[..j + 1];
      }
      assert s[..|s|] == s;
      assert written + Flat(k) == old(written) + (s + Flat(k));
    }

    method Emit4(a: Asm, b: Asm, c: Asm, d: Asm, ghost k: Code)
      requires Valid()
      modifies this, bytes
      ensures Valid() && bytes == old(bytes)
      ensures written + Flat(k) == old(written) + Flat(Then(a, Then(b, Then(c, Then(d, k)))))
    {
      hide Flat, Bytes, Valid;
      Emit(a, Then(b, Then(c, Then(d, k))));
      Emit(b, Then(c, Then(d, k)));
      Emit(c, Then(d, k));
      Emit(d, k);
    }

    /* Flags. */

    method EmitSignBit(ghost k: Code)
      requires Valid()
      modifies this, bytes
      ensures Valid() && bytes == old(bytes)
      ensures written + Flat(k) == old(written) + Flat(SignBit(k))
    {
      hide Flat, Valid;
      Emit(Plain(MovEsiEdx), B(ShrEsi, 7, B(ShlEsi, 31, k)));
      Emit(Imm8(ShrEsi, 7), B(ShlEsi, 31, k));
      Emit(Imm8(ShlEsi, 31), k);
    }

    method EmitZeroBit(ghost k: Code)
      requires Valid()
      modifies this, bytes
      ensures Valid() && bytes == old(bytes)
      ensures written + Flat(k) == old(written) + Flat(ZeroBit(k))
    {
      hide Flat, Valid;
      Emit4(Plain(MovR10dEdx), Imm8(ShrR10d, 6), Imm32(AndR10d, 1), Imm8(ShlR10d, 30), P(OrEsiR10d, k));
      Emit(Plain(OrEsiR10d), k);
    }

    method EmitCarryBit(isSub: bool, ghost k: Code)
      requires Valid()
      modifies this, bytes
      ensures Valid() && bytes == old(bytes)
      ensures written + Flat(k) == old(written) + Flat(CarryBit(isSub, k))
    {
      hide Flat, Valid;
      ghost var shift := B(ShlR10d, 29, P(OrEsiR10d, k));
      ghost var k2 := if isSub then I(XorR10d, 1, shift) else shift;
      Emit(Plain(MovR10dEdx), I(AndR10d, 1, k2));
      Emit(Imm32(AndR10d, 1), k2);
      if isSub {
        Emit(Imm32(XorR10d, 1), shift);
      }
      Emit(Imm8(ShlR10d, 29), P(OrEsiR10d, k));
      Emit(Plain(OrEsiR10d), k);
    }

    method EmitOverflowBit(ghost k: Code)
      requires Valid()
      modifies this, bytes
      ensures Valid() && bytes == old(bytes)
      ensures written + Flat(k) == old(written) + Flat(OverflowBit(k))
    {
      hide Flat, Valid;
      Emit(Plain(MovzxR10dCl), B(ShlR10d, 28, P(OrEsiR10d, k)));
      Emit(Imm8(ShlR10d, 28), P(OrEsiR10d, k));
      Emit(Plain(OrEsiR10d), k);
    }

    method EmitMerge(mask: u32, ghost k: Code)
      requires Valid()
      modifies this, bytes
      ensures Valid() && bytes == old(bytes)
      ensures written + Flat(k) == old(written) + Flat(MergeApsr(mask, k))
    {
      hide Flat, Valid;
      Emit4(Disp(LdR10d, X86.APSR_OFF), Imm32(AndR10d, mask), Plain(OrR10dEsi), Disp(StR10d, X86.APSR_OFF), k);
    }

    method EmitFlagsNzcv(isSub: bool, ghost k: Code)
      requires Valid()
      modifies this, bytes
      ensures Valid() && bytes == old(bytes)
      ensures written + Flat(k) == old(written) + Flat(FlagsNzcvCode(isSub, k))
    {
      hide Flat, Valid, SignBit, ZeroBit, CarryBit, OverflowBit, MergeApsr;
      ghost var k5 := MergeApsr(0x0FFF_FFFF, k);
      ghost var k4 := OverflowBit(k5);
      ghost var k3 := CarryBit(isSub, k4);
      ghost var k2 := ZeroBit(k3);
      Emit(Plain(MovR11dEax), P(LahfAh, P(SetoCl, P(MovzxEdxAh, P(MovEaxR11d, SignBit(k2))))));
      Emit4(Plain(LahfAh), Plain(SetoCl), Plain(MovzxEdxAh), Plain(MovEaxR11d), SignBit(k2));
      EmitSignBit(k2);
      EmitZeroBit(k3);
      EmitCarryBit(isSub, k4);
      EmitOverflowBit(k5);
      EmitMerge(0x0FFF_FFFF, k);
    }

    method EmitFlagsNz(ghost k: Code)
      requires Valid()
      modifies this, bytes
      ensures Valid() && bytes == old(bytes)
      ensures written + Flat(k) == old(written) + Flat(FlagsNzCode(k))
    {
      hide Flat, Valid, SignBit, ZeroBit, MergeApsr;
      ghost var k3 := MergeApsr(0x3FFF_FFFF, k);
      ghost var k2 := ZeroBit(k3);
      Emit4(Plain(MovR11dEax), Plain(LahfAh), Plain(MovzxEdxAh), Plain(MovEaxR11d), SignBit(k2));
      EmitSignBit(k2);
      EmitZeroBit(k3);
      EmitMerge(0x3FFF_FFFF, k);
    }

    /* Data processing. */

    method EmitCompute(sh: Shape, ghost k: Code)
      requires Valid()
      modifies this, bytes
      ensures Valid() && bytes == old(bytes)
      ensures written + Flat(k) == old(written) + Flat(ComputeCode(sh, k))
    {
      hide Flat, Valid, RegOp, ConstOp;
      match sh.src {
        case FromReg(j) =>
          if sh.op.ArMov? {
            Emit(Disp(DispOp.LdEax, RegDisp(j)), k);
          } else {
            Emit(Disp(DispOp.LdEax, RegDisp(sh.rn)), R(LdEcx, j, P(RegOp(sh.op), k)));
            Emit(Disp(DispOp.LdEcx, RegDisp(j)), P(RegOp(sh.op), k));
            Emit(Plain(RegOp(sh.op)), k);
          }
        case Const(v) =>
          if sh.op.ArMov? {
            Emit(Imm32(MovEax, v), k);
          } else {
            Emit(Disp(DispOp.LdEax, RegDisp(sh.rn)), I(ConstOp(sh.op), v, k));
            Emit(Imm32(ConstOp(sh.op), v), k);
          }
      }
    }

    method EmitUpdate(sh: Shape, ghost k: Code)
      requires Valid()
      modifies this, bytes
      ensures Valid() && bytes == old(bytes)
      ensures written + Flat(k) == old(written) + Flat(UpdateCode(sh, k))
    {
      hide Flat, Valid, FlagsNzcvCode, FlagsNzCode;
      match sh.upd {
        case KeepFlags =>
        case UpdateNz =>
          if sh.op.ArMov? {
            Emit(Plain(TestEaxEax), FlagsNzCode(k));
          }
          EmitFlagsNz(k);
        case UpdateNzcv => EmitFlagsNzcv(sh.op.ArSub?, k);
      }
    }

    method EmitData(i: Insn, ghost k: Code)
      requires Valid() && IsData(i.op)
      modifies this, bytes
      ensures Valid() && bytes == old(bytes)
      ensures written + Flat(k) == old(written) + Flat(DataCode(i, k))
    {
      hide Flat, Valid, DataCode, ShapeOf, ComputeCode, UpdateCode;
      DataCodeShape(i, k);
      var sh := ShapeOf(i);
      ghost var end := if sh.store then R(StEax, i.rd, k) else k;
      EmitCompute(sh, UpdateCode(sh, end));
      EmitUpdate(sh, end);
      if sh.store {
        Emit(Disp(DispOp.StEax, RegDisp(i.rd)), k);
      }
    }

    /* Memory accesses. */

    method EmitCommitLoad(rd: Reg, ghost k: Code)
      requires Valid()
      modifies this, bytes
      ensures Valid() && bytes == old(bytes)
      ensures written + Flat(k) == old(written) + Flat(CommitLoad(rd, k))
    {
      hide Flat, Valid;
      Emit4(Plain(TestAl), Jcc8(X86.CcNE, 5), Plain(OrBl1), JmpShort(7), R(StEcx, rd, k));
      Emit(Disp(StEcx, RegDisp(rd)), k);
    }

    method EmitCommitStore(ghost k: Code)
      requires Valid()
      modifies this, bytes
      ensures Valid() && bytes == old(bytes)
      ensures written + Flat(k) == old(written) + Flat(CommitStore(k))
    {
      hide Flat, Valid;
      Emit(Plain(TestAl), Then(Jcc8(X86.CcNE, 3), P(OrBl1, k)));
      Emit(Jcc8(X86.CcNE, 3), P(OrBl1, k));
      Emit(Plain(OrBl1), k);
    }

    method EmitReadCall(env: Env, n: Bus.Width, ghost k: Code)
      requires Valid()
      modifies this, bytes
      ensures Valid() && bytes == old(bytes)
      ensures written + Flat(k) == old(written) + Flat(ReadCallCode(env, n, k))
    {
      hide Flat, Valid;
      Emit4(Imm32(MovR8d, n), Plain(LeaR9Rsp0), MovRaxQ(env.readFn), Plain(CallRax), P(MovEcxRsp0, B(AddRsp, 16, k)));
      Emit(Plain(MovEcxRsp0), B(AddRsp, 16, k));
      Emit(Imm8(AddRsp, 16), k);
    }

    method EmitArguments(ghost k: Code)
      requires Valid()
      modifies this, bytes
      ensures Valid() && bytes == old(bytes)
      ensures written + Flat(k) == old(written) + Flat(B(SubRsp, 16, P(MovRcxR14, P(MovEdxEax, k))))
    {
      hide Flat, Valid;
      Emit(Imm8(SubRsp, 16), P(MovRcxR14, P(MovEdxEax, k)));
      Emit(Plain(MovRcxR14), P(MovEdxEax, k));
      Emit(Plain(MovEdxEax), k);
    }

    method EmitWriteCall(env: Env, ghost k: Code)
      requires Valid()
      modifies this, bytes
      ensures Valid() && bytes == old(bytes)
      ensures written + Flat(k) ==
        old(written) + Flat(Then(MovRaxQ(env.writeFn), P(CallRax, B(AddRsp, 16, CommitStore(k)))))
    {
      hide Flat, Valid, CommitStore;
      Emit(MovRaxQ(env.writeFn), P(CallRax, B(AddRsp, 16, CommitStore(k))));
      Emit(Plain(CallRax), B(AddRsp, 16, CommitStore(k)));
      Emit(Imm8(AddRsp, 16), CommitStore(k));
      EmitCommitStore(k);
    }

    method EmitLoad(env: Env, rd: Reg, n: Bus.Width, ghost k: Code)
      requires Valid()
      modifies this, bytes
      ensures Valid() && bytes == old(bytes)
      ensures written + Flat(k) == old(written) + Flat(LoadFromEax(env, rd, n, k))
    {
      hide Flat, Valid, CommitLoad, ReadCallCode;
      ghost var k2 := MaskEcx(n, CommitLoad(rd, k));
      EmitArguments(ReadCallCode(env, n, k2));
      EmitReadCall(env, n, k2);
      if n == 1 {
        Emit(Imm32(AndEcx, 0xFF), CommitLoad(rd, k));
      } else if n == 2 {
        Emit(Imm32(AndEcx, 0xFFFF), CommitLoad(rd, k));
      }
      EmitCommitLoad(rd, k);
    }

    method EmitStore(env: Env, rd: Reg, n: Bus.Width, ghost k: Code)
      requires Valid()
      modifies this, bytes
      ensures Valid() && bytes == old(bytes)
      ensures written + Flat(k) == old(written) + Flat(StoreFromEax(env, rd, n, k))
    {
      hide Flat, Valid, CommitStore;
      ghost var k3 := Then(MovRaxQ(env.writeFn), P(CallRax, B(AddRsp, 16, CommitStore(k))));
      ghost var k2 := MaskR9d(n, k3);
      EmitArguments(I(MovR8d, n, R(LdR9d, rd, k2)));
      Emit(Imm32(MovR8d, n), R(LdR9d, rd, k2));
      Emit(Disp(LdR9d, RegDisp(rd)), k2);
      if n == 1 {
        Emit(Imm32(AndR9d, 0xFF), k3);
      } else if n == 2 {
        Emit(Imm32(AndR9d, 0xFFFF), k3);
      }
      EmitWriteCall(env, k);
    }

    method EmitAddress(a: Address, ghost k: Code)
      requires Valid()
      modifies this, bytes
      ensures Valid() && bytes == old(bytes)
      ensures written + Flat(k) == old(written) + Flat(AddressCode(a, k))
    {
      hide Flat, Valid;
      match a {
        case Based(rn, imm) =>
          Emit(Disp(DispOp.LdEax, RegDisp(rn)), AddOffset(imm, k));
          if imm != 0 {
            Emit(Imm32(AddEax, imm), k);
          }
        case Fixed(v) => Emit(Imm32(MovEax, v), k);
        case Summed(rn, rm) =>
          Emit(Disp(DispOp.LdEax, RegDisp(rn)), R(LdEcx, rm, P(OpAddEc, k)));
          Emit(Disp(DispOp.LdEcx, RegDisp(rm)), P(OpAddEc, k));
          Emit(Plain(OpAddEc), k);
      }
    }

    method EmitAccess(env: Env, t: Access, ghost k: Code)
      requires Valid()
      modifies this, bytes
      ensures Valid() && bytes == old(bytes)
      ensures written + Flat(k) == old(written) + Flat(AccessCode(env, t, k))
    {
      hide Flat, Valid, AddressCode, LoadFromEax, StoreFromEax;
      if t.load {
        EmitAddress(t.a, LoadFromEax(env, t.rd, t.n, k));
        EmitLoad(env, t.rd, t.n, k);
      } else {
        EmitAddress(t.a, StoreFromEax(env, t.rd, t.n, k));
        EmitStore(env, t.rd, t.n, k);
      }
    }

    method EmitMemory(env: Env, i: Insn, ghost k: Code)
      requires Valid() && IsMemory(i.op)
      modifies this, bytes
      ensures Valid() && bytes == old(bytes)
      ensures written + Flat(k) == old(written) + Flat(MemoryCode(env, i, k))
    {
      hide Flat, Valid, MemoryCode, AccessCode;
      MemoryCodeShape(env, i, k);
      var ts := AccessesOf(i);
      if |ts| == 1 {
        One(env, ts[0], k);
        EmitAccess(env, ts[0], k);
      } else {
        Two(env, ts[0], ts[1], k);
        EmitAccess(env, ts[0], AccessCode(env, ts[1], k));
        EmitAccess(env, ts[1], k);
      }
    }

    /* Multiple transfers. */

    method EmitDown(t: Multi, ghost k: Code)
      requires Valid()
      modifies this, bytes
      ensures Valid() && bytes == old(bytes)
      ensures written + Flat(k) == old(written) + Flat(Down(t, k))
    {
      hide Flat, Valid;
      if t.down {
        Emit(Imm32(SubEax, t.Len()), k);
      }
    }

    method EmitFastOne(t: Multi, j: Reg, off: u32, ghost k: Code)
      requires Valid()
      modifies this, bytes
      ensures Valid() && bytes == old(bytes)
      ensures written + Flat(k) == old(written) + Flat(FastOne(t, j, off, k))
    {
      hide Flat, Valid, Down;
      if t.load {
        Emit(Disp(LdR11Ecx, off), R(StEcx, j, k));
        Emit(Disp(StEcx, RegDisp(j)), k);
      } else if j == REG_PC {
        Emit(Imm32(MovEax, t.pcWord), D(StR11Eax, off, R(LdEax, t.base, Down(t, k))));
        Emit(Disp(StR11Eax, off), R(LdEax, t.base, Down(t, k)));
        Emit(Disp(DispOp.LdEax, RegDisp(t.base)), Down(t, k));
        EmitDown(t, k);
      } else {
        Emit(Disp(DispOp.LdEcx, RegDisp(j)), D(StR11Ecx, off, k));
        Emit(Disp(StR11Ecx, off), k);
      }
    }

    /** Ascending registers at ascending offsets. */
    method EmitFastLoop(t: Multi, ghost k: Code)
      requires Valid()
      modifies this, bytes
      ensures Valid() && bytes == old(bytes)
      ensures written + Flat(k) == old(written) + Flat(FastLoop(t, 0, 0, k))
    {
      hide Flat, Valid, FastOne;
      var off: u32 := 0;
      for j := 0 to 16
        invariant Valid() && bytes == old(bytes)
        invariant written + Flat(FastLoop(t, j, off, k)) == old(written) + Flat(FastLoop(t, 0, 0, k))
      {
        if j in t.regs {
          EmitFastOne(t, j, off, FastLoop(t, j + 1, Add32(off, 4), k));
          off := Add32(off, 4);
        }
      }
    }

    method EmitSlowOne(env: Env, t: Multi, j: Reg, off: u32, ghost k: Code)
      requires Valid()
      modifies this, bytes
      ensures Valid() && bytes == old(bytes)
      ensures written + Flat(k) == old(written) + Flat(SlowOne(env, t, j, off, k))
    {
      hide Flat, Valid, Down, CommitLoad, CommitStore, ReadCallCode;
      ghost var access := Layout.SlowAccess(env, t, j, k);
      ghost var k2 := I(AddEdx, off, access);
      ghost var k1 := B(SubRsp, 16, P(MovRcxR14, P(MovEdxEax, k2)));
      Emit(Disp(DispOp.LdEax, RegDisp(t.base)), Down(t, k1));
      EmitDown(t, k1);
      EmitArguments(k2);
      Emit(Imm32(AddEdx, off), access);
      if t.load {
        EmitReadCall(env, 4, CommitLoad(j, k));
        EmitCommitLoad(j, k);
      } else {
        ghost var call := Then(MovRaxQ(env.writeFn), P(CallRax, B(AddRsp, 16, CommitStore(k))));
        Emit(Imm32(MovR8d, 4), SlowSource(t, j, call));
        if j == REG_PC {
          Emit(Imm32(MovR9d, t.pcWord), call);
        } else {
          Emit(Disp(LdR9d, RegDisp(j)), call);
        }
        EmitWriteCall(env, k);
      }
    }

    method EmitSlowLoop(env: Env, t: Multi, ghost k: Code)
      requires Valid()
      modifies this, bytes
      ensures Valid() && bytes == old(bytes)
      ensures written + Flat(k) == old(written) + Flat(SlowLoop(env, t, 0, 0, k))
    {
      hide Flat, Valid, SlowOne;
      var off: u32 := 0;
      for j := 0 to 16
        invariant Valid() && bytes == old(bytes)
        invariant written + Flat(SlowLoop(env, t, j, off, k)) == old(written) + Flat(SlowLoop(env, t, 0, 0, k))
      {
        if j in t.regs {
          EmitSlowOne(env, t, j, off, SlowLoop(env, t, j + 1, Add32(off, 4), k));
          off := Add32(off, 4);
        }
      }
    }

    method EmitWriteback(t: Multi, ghost k: Code)
      requires Valid()
      modifies this, bytes
      ensures Valid() && bytes == old(bytes)
      ensures written + Flat(k) == old(written) + Flat(WritebackCode(t, k))
    {
      hide Flat, Valid;
      if t.wb {
        var op := if t.down then SubEax else AddEax;
        Emit(Disp(DispOp.LdEax, RegDisp(t.base)), I(op, t.Len(), R(StEax, t.base, k)));
        Emit(Imm32(op, t.Len()), R(StEax, t.base, k));
        Emit(Disp(DispOp.StEax, RegDisp(t.base)), k);
      }
    }

    method EmitSlowPath(env: Env, t: Multi, ghost k: Code)
      requires Valid()
      modifies this, bytes
      ensures Valid() && bytes == old(bytes)
      ensures written + Flat(k) == old(written) + Flat(SlowPath(env, t, k))
    {
      hide Flat, Valid, SlowLoop, WritebackCode;
      EmitSlowLoop(env, t, WritebackCode(t, k));
      EmitWriteback(t, k);
    }

    method EmitFastPath(f: Sram, t: Multi, ghost k: Code)
      requires Valid()
      modifies this, bytes
      ensures Valid() && bytes == old(bytes)
      ensures written + Flat(k) == old(written) + Flat(FastPath(f, t, k))
    {
      hide Flat, Valid, FastLoop, WritebackCode;
      ghost var k2 := WritebackCode(t, k);
      Emit4(MovR10Q(f.buf), Plain(MovR11dEax), Plain(AddR11R10), Imm32(SubR11, f.base), FastLoop(t, 0, 0, k2));
      EmitFastLoop(t, k2);
      EmitWriteback(t, k);
    }

    /** Sizes first, then the bounds checks that use them, then both paths. */
    method EmitMulti(env: Env, t: Multi, ghost k: Code)
      requires Valid()
      modifies this, bytes
      ensures Valid() && bytes == old(bytes)
      ensures written + Flat(k) == old(written) + Flat(MultiCode(env, t, k))
    {
      hide Flat, Valid, FastPath, SlowPath;
      Layout.SlowFits(t);
      if env.sram.Some? && JbTarget(t) <= 127 {
        var f := env.sram.value;
        ghost var slow := SlowPath(env, t, k);
        ghost var fast := FastPath(f, t, JumpOver(t, slow));
        Emit4(Imm32(CmpEax, f.base), Jcc8(X86.CcB, JbTarget(t)), Imm32(CmpEax, HighestStart(f, t)),
          Jcc8(X86.CcA, JaTarget(t)), fast);
        EmitFastPath(f, t, JumpOver(t, slow));
        if SlowBody(t) <= 127 {
          Emit(JmpShort(SlowBody(t)), slow);
        } else {
          Emit(JmpNear(SlowBody(t)), slow);
        }
      }
      EmitSlowPath(env, t, k);
    }

    method EmitPush(env: Env, t: Multi, ghost k: Code)
      requires Valid()
      modifies this, bytes
      ensures Valid() && bytes == old(bytes)
      ensures written + Flat(k) == old(written) + Flat(PushCode(env, t, k))
    {
      hide Flat, Valid, MultiCode;
      if t.Words() != 0 {
        ghost var k1 := MultiCode(env, t, k);
        Emit(Disp(DispOp.LdEax, RegDisp(REG_SP)), I(SubEax, t.Len(), R(StEax, REG_SP, k1)));
        Emit(Imm32(SubEax, t.Len()), R(StEax, REG_SP, k1));
        Emit(Disp(DispOp.StEax, RegDisp(REG_SP)), k1);
        EmitMulti(env, t, k);
      }
    }

    method EmitLdmStm(env: Env, t: Multi, ghost k: Code)
      requires Valid()
      modifies this, bytes
      ensures Valid() && bytes == old(bytes)
      ensures written + Flat(k) == old(written) + Flat(LdmStmCode(env, t, k))
    {
      hide Flat, Valid, MultiCode, Down;
      if t.Words() != 0 {
        ghost var k1 := MultiCode(env, t, k);
        Emit(Disp(DispOp.LdEax, RegDisp(t.base)), Down(t, k1));
        EmitDown(t, k1);
        EmitMulti(env, t, k);
      }
    }

    /* Branches. */

    method EmitCondTest(cond: nat, ghost k: Code)
      requires Valid() && cond < 14
      modifies this, bytes
      ensures Valid() && bytes == old(bytes)
      ensures written + Flat(k) == old(written) + Flat(CondTest(cond, k))
    {
      hide Flat, Valid, CondTest;
      CondTestCases(cond, k);
      if cond < 8 {
        Emit(Imm8(TestAlImm, SimpleMask(cond)), k);
      } else if cond < 10 {
        Emit(Imm8(AndAlImm, 0x06), B(CmpAlImm, 0x02, k));
        Emit(Imm8(CmpAlImm, 0x02), k);
      } else {
        Emit4(Plain(MovAhAl), Imm8(ShrAh, 3), Plain(XorAlAh), Imm8(TestAlImm, if cond < 12 then 1 else 5), k);
      }
    }

    method EmitBCond(i: Insn, ghost k: Code)
      requires Valid()
      modifies this, bytes
      ensures Valid() && bytes == old(bytes)
      ensures written + Flat(k) == old(written) + Flat(BCondCode(i, k))
    {
      hide Flat, Valid, CondTest, CondJump;
      var target, fall := Add32(Add32(i.pc, 4), i.imm), Add32(i.pc, i.size);
      if i.cond == 0xE {
        Emit(StPc(target), k);
      } else if i.cond >= 0xF {
        Emit(StPc(fall), k);
      } else {
        BCondShape(i, k);
        ghost var jump := PickPc(i.cond, fall, target, k);
        Emit(LdAlApsrByte3, if i.cond >= 8 then B(ShrAl, 4, CondTest(i.cond, jump)) else CondTest(i.cond, jump));
        if i.cond >= 8 {
          Emit(Imm8(ShrAl, 4), CondTest(i.cond, jump));
        }
        EmitCondTest(i.cond, jump);
        Emit4(JccNear(CondJump(i.cond), 13), StPc(fall), JmpShort(11), StPc(target), k);
      }
    }

    method EmitBranch(i: Insn, ghost k: Code)
      requires Valid() && IsBranch(i.op)
      modifies this, bytes
      ensures Valid() && bytes == old(bytes)
      ensures written + Flat(k) == old(written) + Flat(BranchCode(i, k))
    {
      hide Flat, Valid, BCondCode;
      var target := Add32(Add32(i.pc, 4), i.imm);
      if i.op.BUncond? {
        Emit(StPc(target), k);
      } else if i.op.T32Bl? {
        var lr := Nvic.SetThumb(Add32(i.pc, i.size));
        ghost var k2 := Then(StPc(Nvic.Even(target)), k);
        Emit(Imm32(MovEax, lr), R(StEax, REG_LR, k2));
        Emit(Disp(DispOp.StEax, RegDisp(REG_LR)), k2);
        Emit(StPc(Nvic.Even(target)), k);
      } else {
        EmitBCond(i, k);
      }
    }

    /* Instructions and blocks. */

    method EmitOp(env: Env, i: Insn, ghost k: Code)
      requires Valid()
      modifies this, bytes
      ensures Valid() && bytes == old(bytes)
      ensures written + Flat(k) == old(written) + Flat(OpCode(env, i, k))
    {
      hide Flat, Valid, DataCode, MemoryCode, PushCode, LdmStmCode, BranchCode;
      if IsData(i.op) {
        EmitData(i, k);
      } else if IsMemory(i.op) {
        EmitMemory(env, i, k);
      } else if i.op.Push? {
        EmitPush(env, PushMulti(i), k);
      } else if i.op.Pop? {
        EmitLdmStm(env, PopMulti(i), k);
      } else if IsMulti(i.op) {
        EmitLdmStm(env, LdmStmMulti(i), k);
      } else if IsBranch(i.op) {
        EmitBranch(i, k);
      }
    }

    method EmitPrologue(ghost k: Code)
      requires Valid()
      modifies this, bytes
      ensures Valid() && bytes == old(bytes)
      ensures written + Flat(k) == old(written) + Flat(Prologue(k))
    {
      hide Flat, Valid;
      ghost var k2 := P(MovR15Rcx, P(MovR14Rdx, k));
      Emit4(Plain(PushR15), Plain(PushR14), Plain(PushRbx), Plain(PushRsi), B(SubRsp, 32, k2));
      Emit(Imm8(SubRsp, 32), k2);
      Emit(Plain(MovR15Rcx), P(MovR14Rdx, k));
      Emit(Plain(MovR14Rdx), k);
    }

    method EmitUnwind(ghost k: Code)
      requires Valid()
      modifies this, bytes
      ensures Valid() && bytes == old(bytes)
      ensures written + Flat(k) == old(written) + Flat(Unwind(k))
    {
      hide Flat, Valid;
      Emit4(Imm8(AddRsp, 32), Plain(PopRsi), Plain(PopRbx), Plain(PopR14), P(PopR15, k));
      Emit(Plain(PopR15), k);
    }

    method EmitEpilogue(ghost k: Code)
      requires Valid()
      modifies this, bytes
      ensures Valid() && bytes == old(bytes)
      ensures written + Flat(k) == old(written) + Flat(Epilogue(k))
    {
      hide Flat, Valid, Unwind;
      ghost var good := Unwind(P(MovAl1, P(RetIns, k)));
      ghost var fail := Unwind(P(XorAlAl, P(RetIns, good)));
      Emit(Plain(TestBl), Then(Jcc8(X86.CcE, 21), Then(SetHalted, fail)));
      Emit(Jcc8(X86.CcE, 21), Then(SetHalted, fail));
      Emit(SetHalted, fail);
      EmitUnwind(P(XorAlAl, P(RetIns, good)));
      Emit(Plain(XorAlAl), P(RetIns, good));
      Emit(Plain(RetIns), good);
      EmitUnwind(P(MovAl1, P(RetIns, k)));
      Emit(Plain(MovAl1), P(RetIns, k));
      Emit(Plain(RetIns), k);
    }

    /** Compile a block at the end of the buffer. Refused, with nothing appended, when some
        instruction has no native form or the guard finds too little room; otherwise the
        block's code is appended. All of it is in the buffer exactly when it fits the bytes
        left, which it always does without multi-register transfers and, in a buffer with no
        more room than the guard asks for, with them only while their bytes stay within it. */
    method CodegenEmit(env: Env, ins: seq<Insn>) returns (start: Option<nat>)
      requires Valid() && |ins| > 0
      modifies this, bytes
      ensures Valid() && bytes == old(bytes)
      ensures start.Some? <==>
        (forall i :: i in ins ==> Supports(i.op) && NativeOk(i)) && |old(written)| + Reserved(|ins|) <= bytes.Length
      ensures start.None? ==> written == old(written)
      ensures start.Some? ==> start.value == |old(written)| && written == old(written) + Flat(BlockCode(env, ins, End))
      ensures start.Some? ==> var code := Flat(BlockCode(env, ins, End));
        && (used == start.value + |code| <==> start.value + |code| <= bytes.Length)
        && (used == start.value + |code| ==> bytes[start.value..used] == code)
        && (NoMulti(ins) || OpsBytes(env.sram.Some?, ins) <= 160 * |ins| - 3 ==> used == start.value + |code|)
        && (Placed(bytes[..used], env, ins, start.value) <==> used == start.value + |code|)
      ensures old(bytes[..used]) <= bytes[..used] && used <= bytes.Length
    {
      hide Flat, BlockCode, OpsBytes;
      for j := 0 to |ins|
        invariant forall i :: i in ins[..j] ==> Supports(i.op) && NativeOk(i)
      {
        if !Supports(ins[j].op) || !NativeOk(ins[j]) {
          return None;
        }
      }
      assert ins[..|ins|] == ins;
      if used + Reserved(|ins|) > bytes.Length {
        return None;
      }
      start := Some(used);
      EmitBlock(env, ins);
      BlockSize(env, ins);
      if NoMulti(ins) {
        ReservationSuffices(env, ins);
      }
      ghost var code := Flat(BlockCode(env, ins, End));
      if used == start.value + |code| {
        assert written[..used] == written;
        assert (old(written) + code)[|old(written)|..] == code;
      }
    }

    method EmitBlock(env: Env, ins: seq<Insn>)
      requires Valid() && |ins| > 0
      modifies this, bytes
      ensures Valid() && bytes == old(bytes)
      ensures written == old(written) + Flat(BlockCode(env, ins, End))
    {
      hide Flat, Valid, Prologue, Epilogue, OpCode;
      var last := ins[|ins| - 1];
      ghost var end := FallThrough(last, Epilogue(End));
      ghost var ops := OpsCode(env, ins, end);
      EmitPrologue(P(ClearFail, ops));
      Emit(Plain(ClearFail), ops);
      for j := 0 to |ins|
        invariant Valid() && bytes == old(bytes)
        invariant written + Flat(OpsCode(env, ins[j..], end)) == old(written) + Flat(BlockCode(env, ins, End))
      {
        assert ins[j..][1..] == ins[j + 1..];
        EmitOp(env, ins[j], OpsCode(env, ins[j + 1..], end));
      }
      if !IsBranch(last.op) {
        Emit(StPc(Add32(last.pc, last.size)), Epilogue(End));
      }
      EmitEpilogue(End);
      FlatEnd(written);
    }
  }

  lemma FlatEnd(s: seq<u8>)
    ensures s + Flat(End) == s
  {
  }
}

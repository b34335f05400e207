/** Sizes of emitted code and where its jumps land. */
module Layout {
  import opened Words
  import opened Cpu
  import opened Insn
  import opened Asm
  import opened Codegen
  import opened NativeRun
  import X86
  import Bus

  /** The first n bytes of c are whole instructions, and k is what follows them. */
  predicate Span(c: Code, n: nat, k: Code) {
    Skip(c, n) == Some(k)
  }

  lemma {:induction false} Join(c: Code, n: nat, k: Code, m: nat, k': Code)
    requires Span(c, n, k) && Span(k, m, k')
    ensures Span(c, n + m, k')
    decreases c
  {
    if n != 0 {
      BytesNonEmpty(c.a);
      Join(c.k, n - |Bytes(c.a)|, k, m, k');
    }
  }

  /* Instruction lengths. */

  function PlainSize(p: PlainOp): nat {
    match p
    case LahfAh => 1 case PushRbx => 1 case PushRsi => 1 case PopRbx => 1 case PopRsi => 1 case RetIns => 1
    case OpAddEc => 2 case OpSubEc => 2 case OpAndEc => 2 case OpOrEc => 2 case OpXorEc => 2
    case TestEaxEax => 2 case ClearFail => 2 case MovEdxEax => 2 case MovEsiEdx => 2 case CallRax => 2
    case MovAhAl => 2 case XorAlAh => 2 case XorAlAl => 2 case TestAl => 2 case TestBl => 2 case MovAl1 => 2
    case PushR15 => 2 case PushR14 => 2 case PopR15 => 2 case PopR14 => 2
    case MovzxR10dCl => 4 case LeaR9Rsp0 => 4
    case _ => 3
  }

  function ImmSize(o: ImmOp): nat {
    match o
    case MovEax => 5 case AddEax => 5 case SubEax => 5 case AndEax => 5 case OrEax => 5 case XorEax => 5
    case CmpEax => 5
    case MovR8d => 6 case MovR9d => 6 case AddEdx => 6 case AndEcx => 6
    case _ => 7
  }

  function ByteSize(b: ByteOp): nat {
    match b
    case TestAlImm => 2 case AndAlImm => 2 case CmpAlImm => 2
    case ShrEsi => 3 case ShlEsi => 3 case ShrAl => 3 case ShrAh => 3
    case _ => 4
  }

  function Size(a: Asm): nat {
    match a
    case Plain(p) => PlainSize(p)
    case Disp(_, _) => 7
    case Imm32(o, _) => ImmSize(o)
    case Imm8(b, _) => ByteSize(b)
    case MovRaxQ(_) => 10
    case MovR10Q(_) => 10
    case LdAlApsrByte3 => 7
    case SetHalted => 8
    case StPc(_) => 11
    case JmpShort(_) => 2
    case JmpNear(_) => 5
    case Jcc8(_, _) => 2
    case JccNear(_, _) => 6
  }

  lemma SizeIsLength(a: Asm)
    ensures |Bytes(a)| == Size(a)
  {
  }

  lemma Span1(a: Asm, k: Code)
    ensures Span(Then(a, k), Size(a), k)
  {
    hide Bytes, Size;
    BytesNonEmpty(a);
    SizeIsLength(a);
    assert Skip(k, 0) == Some(k);
  }

  lemma Span2(a: Asm, b: Asm, k: Code)
    ensures Span(Then(a, Then(b, k)), Size(a) + Size(b), k)
  {
    hide *;
    Span1(b, k);
    Span1(a, Then(b, k));
    Join(Then(a, Then(b, k)), Size(a), Then(b, k), Size(b), k);
  }

  lemma Span4(a: Asm, b: Asm, c: Asm, d: Asm, k: Code)
    ensures Span(Then(a, Then(b, Then(c, Then(d, k)))), Size(a) + Size(b) + Size(c) + Size(d), k)
  {
    hide *;
    var k2 := Then(c, Then(d, k));
    Span2(a, b, k2);
    Span2(c, d, k);
    Join(Then(a, Then(b, k2)), Size(a) + Size(b), k2, Size(c) + Size(d), k);
  }

  /* Fragments shared by the memory emitters. */

  lemma ReadSizes(n: u32, q: u64)
    ensures Size(Imm32(MovR8d, n)) + Size(Plain(LeaR9Rsp0)) + Size(MovRaxQ(q)) + Size(Plain(CallRax)) == 22
    ensures Size(Plain(MovEcxRsp0)) + Size(Imm8(AddRsp, 16)) == 7
  {
  }

  lemma SpanCallRead(env: Env, n: Bus.Width, k: Code)
    ensures Span(ReadCallCode(env, n, k), 29, k)
  {
    hide Skip, Span, Size;
    var k2 := P(MovEcxRsp0, B(AddRsp, 16, k));
    Span4(Imm32(MovR8d, n), Plain(LeaR9Rsp0), MovRaxQ(env.readFn), Plain(CallRax), k2);
    Span2(Plain(MovEcxRsp0), Imm8(AddRsp, 16), k);
    ReadSizes(n, env.readFn);
    Join(ReadCallCode(env, n, k), 22, k2, 7, k);
  }

  lemma SpanCommitLoad(rd: Reg, k: Code)
    ensures Span(CommitLoad(rd, k), 16, k)
    ensures Span(P(OrBl1, Then(JmpShort(7), R(StEcx, rd, k))), 5, R(StEcx, rd, k))
    ensures Span(R(StEcx, rd, k), 7, k)
  {
    hide Skip;
    var st := R(StEcx, rd, k);
    var fail := P(OrBl1, Then(JmpShort(7), st));
    Span2(Plain(TestAl), Jcc8(X86.CcNE, 5), fail);
    Span2(Plain(OrBl1), JmpShort(7), st);
    Span1(Disp(StEcx, RegDisp(rd)), k);
    Join(CommitLoad(rd, k), 4, fail, 5, st);
    Join(CommitLoad(rd, k), 9, st, 7, k);
  }

  lemma SpanCommitStore(k: Code)
    ensures Span(CommitStore(k), 7, k)
    ensures Span(P(OrBl1, k), 3, k)
  {
    hide Skip;
    Span2(Plain(TestAl), Jcc8(X86.CcNE, 3), P(OrBl1, k));
    Span1(Plain(OrBl1), k);
    Join(CommitStore(k), 4, P(OrBl1, k), 3, k);
  }

  lemma SpanDown(t: Multi, k: Code)
    ensures Span(Down(t, k), if t.down then 5 else 0, k)
  {
    if t.down {
      Span1(Imm32(SubEax, t.Len()), k);
    }
  }

  /* Multiple transfers. */

  lemma SpanFastOne(t: Multi, j: Reg, off: u32, k: Code)
    ensures Span(FastOne(t, j, off, k), FastSizeOf(t, j), k)
  {
    hide Skip;
    if t.load {
      Span2(Disp(LdR11Ecx, off), Disp(StEcx, RegDisp(j)), k);
    } else if j == REG_PC {
      var down := Down(t, k);
      var ld := R(LdEax, t.base, down);
      Span2(Imm32(MovEax, t.pcWord), Disp(StR11Eax, off), ld);
      Span1(Disp(DispOp.LdEax, RegDisp(t.base)), down);
      SpanDown(t, k);
      Join(FastOne(t, j, off, k), 12, ld, 7, down);
      Join(FastOne(t, j, off, k), 19, down, if t.down then 5 else 0, k);
    } else {
      Span2(Disp(DispOp.LdEcx, RegDisp(j)), Disp(StR11Ecx, off), k);
    }
  }

  lemma {:induction false} SpanFastLoop(t: Multi, j: nat, off: u32, k: Code)
    requires j <= 16
    ensures Span(FastLoop(t, j, off, k), FastSum(t, j), k)
    decreases 16 - j
  {
    if j == 16 {
    } else if j in t.regs {
      hide Skip, FastOne, FastSizeOf;
      var rest := FastLoop(t, j + 1, Add32(off, 4), k);
      SpanFastOne(t, j, off, rest);
      SpanFastLoop(t, j + 1, Add32(off, 4), k);
      Join(FastLoop(t, j, off, k), FastSizeOf(t, j), rest, FastSum(t, j + 1), k);
    } else {
      SpanFastLoop(t, j + 1, off, k);
    }
  }

  function SlowAccess(env: Env, t: Multi, j: Reg, k: Code): Code {
    if t.load then ReadCallCode(env, 4, CommitLoad(j, k))
    else I(MovR8d, 4, SlowSource(t, j, Then(MovRaxQ(env.writeFn), P(CallRax, B(AddRsp, 16, CommitStore(k))))))
  }

  lemma SpanSlowAccess(env: Env, t: Multi, j: Reg, k: Code)
    ensures Span(SlowAccess(env, t, j, k), if t.load then 45 else if j == REG_PC then 35 else 36, k)
  {
    hide Skip;
    var c := SlowAccess(env, t, j, k);
    if t.load {
      SpanCallRead(env, 4, CommitLoad(j, k));
      SpanCommitLoad(j, k);
      Join(c, 29, CommitLoad(j, k), 16, k);
    } else {
      var commit := CommitStore(k);
      var add := B(AddRsp, 16, commit);
      var src := if j == REG_PC then Imm32(MovR9d, t.pcWord) else Disp(LdR9d, RegDisp(j));
      Span4(Imm32(MovR8d, 4), src, MovRaxQ(env.writeFn), Plain(CallRax), add);
      Span1(Imm8(AddRsp, 16), commit);
      SpanCommitStore(k);
      Join(c, if j == REG_PC then 24 else 25, add, 4, commit);
      Join(c, if j == REG_PC then 28 else 29, commit, 7, k);
    }
  }

  lemma SpanSlowOne(env: Env, t: Multi, j: Reg, off: u32, k: Code)
    ensures Span(SlowOne(env, t, j, off, k), SlowSizeOf(t, j), k)
  {
    hide Skip;
    var access := SlowAccess(env, t, j, k);
    var sub := B(SubRsp, 16, P(MovRcxR14, P(MovEdxEax, I(AddEdx, off, access))));
    var down := Down(t, sub);
    var c, d := SlowOne(env, t, j, off, k), if t.down then 5 else 0;
    assert c == R(LdEax, t.base, down);
    Span1(Disp(DispOp.LdEax, RegDisp(t.base)), down);
    SpanDown(t, sub);
    Span4(Imm8(SubRsp, 16), Plain(MovRcxR14), Plain(MovEdxEax), Imm32(AddEdx, off), access);
    SpanSlowAccess(env, t, j, k);
    hide *;
    Join(c, 7, down, d, sub);
    Join(c, 7 + d, sub, 15, access);
    Join(c, 22 + d, access, if t.load then 45 else if j == REG_PC then 35 else 36, k);
  }

  lemma {:induction false} SpanSlowLoop(env: Env, t: Multi, j: nat, off: u32, k: Code)
    requires j <= 16
    ensures Span(SlowLoop(env, t, j, off, k), SlowSum(t, j), k)
    decreases 16 - j
  {
    if j == 16 {
    } else if j in t.regs {
      hide Skip, SlowOne, SlowSizeOf;
      var rest := SlowLoop(env, t, j + 1, Add32(off, 4), k);
      SpanSlowOne(env, t, j, off, rest);
      SpanSlowLoop(env, t, j + 1, Add32(off, 4), k);
      Join(SlowLoop(env, t, j, off, k), SlowSizeOf(t, j), rest, SlowSum(t, j + 1), k);
    } else {
      SpanSlowLoop(env, t, j + 1, off, k);
    }
  }

  lemma SpanWriteback(t: Multi, k: Code)
    ensures Span(WritebackCode(t, k), if t.wb then 19 else 0, k)
  {
    hide Skip;
    if t.wb {
      var op := if t.down then SubEax else AddEax;
      var st := R(StEax, t.base, k);
      Span2(Disp(DispOp.LdEax, RegDisp(t.base)), Imm32(op, t.Len()), st);
      Span1(Disp(DispOp.StEax, RegDisp(t.base)), k);
      Join(WritebackCode(t, k), 12, st, 7, k);
    } else {
      SkipZero(k);
    }
  }

  lemma SkipZero(k: Code)
    ensures Skip(k, 0) == Some(k)
  {
  }

  lemma SpanSlowPath(env: Env, t: Multi, k: Code)
    ensures Span(SlowPath(env, t, k), SlowBody(t), k)
  {
    hide Skip, SlowLoop, WritebackCode, SlowSum;
    var wb := WritebackCode(t, k);
    SpanSlowLoop(env, t, 0, 0, wb);
    SpanWriteback(t, k);
    Join(SlowPath(env, t, k), SlowSum(t, 0), wb, if t.wb then 19 else 0, k);
  }

  lemma SpanFastPath(s: Sram, t: Multi, k: Code)
    ensures Span(FastPath(s, t, k), FastBody(t), k)
  {
    hide Skip, FastLoop, WritebackCode, FastSum;
    var wb := WritebackCode(t, k);
    var loop := FastLoop(t, 0, 0, wb);
    Span4(MovR10Q(s.buf), Plain(MovR11dEax), Plain(AddR11R10), Imm32(SubR11, s.base), loop);
    SpanFastLoop(t, 0, 0, wb);
    SpanWriteback(t, k);
    Join(FastPath(s, t, k), 23, loop, FastSum(t, 0), wb);
    Join(FastPath(s, t, k), 23 + FastSum(t, 0), wb, if t.wb then 19 else 0, k);
  }

  lemma SpanJumpOver(t: Multi, k: Code)
    requires SlowBody(t) < 0x8000_0000
    ensures Span(JumpOver(t, k), JmpSize(t), k)
  {
    hide Skip, SlowBody;
    if SlowBody(t) <= 127 {
      Span1(JmpShort(SlowBody(t)), k);
    } else {
      Span1(JmpNear(SlowBody(t)), k);
    }
  }

  /** The code after the two bounds checks of a transfer that has a fast path. */
  function AfterJa(env: Env, s: Sram, t: Multi, k: Code): Code
    requires SlowBody(t) < 0x8000_0000
  {
    FastPath(s, t, JumpOver(t, SlowPath(env, t, k)))
  }

  function AfterJb(env: Env, s: Sram, t: Multi, k: Code): Code
    requires JbTarget(t) <= 127 && SlowBody(t) < 0x8000_0000
  {
    I(CmpEax, HighestStart(s, t), Then(Jcc8(X86.CcA, JaTarget(t)), AfterJa(env, s, t, k)))
  }

  lemma SlowFits(t: Multi)
    ensures SlowBody(t) < 0x8000_0000
  {
    SlowSumBound(t, 0);
  }

  /** Every jump of a multi-register transfer lands where it should: the sizes computed
      from the register list before emission are the sizes of what is emitted, both
      bounds checks jump to the first slow-path instruction, the jump closing the fast
      path reaches the end of the slow path, and each displacement fits its encoding. */
  lemma JumpsLand(env: Env, s: Sram, t: Multi, k: Code)
    requires JbTarget(t) <= 127
    ensures SlowBody(t) < 0x8000_0000
    ensures BothPaths(env, s, t, k) == I(CmpEax, s.base, Then(Jcc8(X86.CcB, JbTarget(t)), AfterJb(env, s, t, k)))
    ensures Span(AfterJb(env, s, t, k), JbTarget(t), SlowPath(env, t, k))
    ensures Span(AfterJa(env, s, t, k), JaTarget(t), SlowPath(env, t, k))
    ensures Span(SlowPath(env, t, k), SlowBody(t), k)
    ensures JaTarget(t) <= 127
    ensures JmpSize(t) == Size(if SlowBody(t) <= 127 then JmpShort(SlowBody(t)) else JmpNear(SlowBody(t)))
  {
    hide Skip, FastPath, SlowPath, FastBody, SlowBody, JumpOver;
    SlowFits(t);
    var slow := SlowPath(env, t, k);
    var over := JumpOver(t, slow);
    var ja := AfterJa(env, s, t, k);
    var jb := AfterJb(env, s, t, k);
    SpanSlowPath(env, t, k);
    SpanJumpOver(t, slow);
    SpanFastPath(s, t, over);
    Join(ja, FastBody(t), over, JmpSize(t), slow);
    Span2(Imm32(CmpEax, HighestStart(s, t)), Jcc8(X86.CcA, JaTarget(t)), ja);
    Join(jb, 7, ja, JaTarget(t), slow);
  }
}

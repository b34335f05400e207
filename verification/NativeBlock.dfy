/** A compiled block against the interpreter: the central theorem of the code generator. */
module NativeBlock {
  import opened Words
  import opened Cpu
  import opened Insn
  import opened Nvic
  import opened Asm
  import opened Codegen
  import opened NativeRun
  import opened NativeSteps
  import opened NativeFlags
  import opened NativeMemory
  import opened NativeAccess
  import opened NativeMulti
  import opened NativeForms
  import opened Layout
  import X = X86
  import Bus
  import Executor

  /** Folding the interpreter over a block, stopping at the first fault. */
  function Interpret(c: CpuState, m: Bus.Memory, ins: seq<Insn>): Outcome
    decreases |ins|
  {
    if |ins| == 0 then Outcome(c, m, true)
    else
      var o := Executor.Execute(c, m, ins[0]);
      if o.ok then Interpret(o.c, o.m, ins[1..]) else o
  }

  /** Consecutive instructions, a branch only last. */
  predicate Chain(ins: seq<Insn>) {
    forall j :: 0 <= j < |ins| - 1 ==> !IsBranch(ins[j].op) && ins[j + 1].pc == Add32(ins[j].pc, ins[j].size)
  }

  predicate AllNative(ins: seq<Insn>) {
    forall j :: 0 <= j < |ins| ==> NativeForm(ins[j])
  }

  /** Inside the block: registers in place, fault register 0 or 1, outside any IT block. */
  ghost predicate Inside(h: X.Host, env: Env, s: X.State) {
    Ready(h, s) && EnvFits(h, env, s.mem) && s.x.rbx < 2 && s.guest.itstate == 0
  }

  /** The stack slots the epilogue needs, and the cycle counter, which native code leaves alone. */
  predicate SameFrame(s: X.State, s': X.State) {
    s'.x.rsp == s.x.rsp && s'.stack == s.stack && s'.guest.cycles == s.guest.cycles
  }

  lemma InsideKept(h: X.Host, env: Env, s: X.State, s': X.State, i: Insn, o: Outcome)
    requires Inside(h, env, s) && Simulates(s, s', i, o)
    ensures Inside(h, env, s') && SameFrame(s, s')
    ensures s'.x.rbx == (if o.ok then s.x.rbx else 1) && Bus.RomKept(s.mem, s'.mem)
  {
    hide SramOk;
    ReadyAfter(h, s, s');
    if env.sram.Some? {
      SramKept(h, s.mem, s'.mem, env.sram.value);
    }
  }

  /** Where a block's last instruction leaves the PC, in the guest or still to be stored. */
  predicate PcLeft(ins: seq<Insn>, g: CpuState, c: CpuState)
    requires |ins| > 0
  {
    var last := ins[|ins| - 1];
    if IsBranch(last.op) then g.Pc() == c.Pc() else c.Pc() == Add32(last.pc, last.size)
  }

  /** What the block's instructions leave, against the interpreter's outcome. */
  ghost predicate Follows(s': X.State, ins: seq<Insn>, o: Outcome)
    requires |ins| > 0
  {
    if o.ok then s'.x.rbx == 0 && Tracks(o.c, s'.guest) && s'.mem == o.m && PcLeft(ins, s'.guest, o.c)
    else s'.x.rbx == 1
  }

  lemma StaleEntry(g: CpuState, i: Insn)
    requires g.itstate == 0
    ensures Entry(g.(r := g.r[REG_PC := i.pc]), g, i)
  {
  }

  /** Once the fault register is set, the rest of the block still runs to its end and
      leaves it set. */
  lemma {:induction false} RunFaulted(h: X.Host, env: Env, ins: seq<Insn>, k: Code, s: X.State) returns (s': X.State)
    requires Inside(h, env, s) && AllNative(ins) && s.x.rbx == 1
    ensures Exec(h, OpsCode(env, ins, k), s) == Exec(h, k, s')
    ensures Inside(h, env, s') && SameFrame(s, s') && s'.x.rbx == 1 && Bus.RomKept(s.mem, s'.mem)
    decreases |ins|
  {
    hide Exec, OpCode, Executor.Execute, Entry, Simulates, NativeForm, Ready, EnvFits, Bus.RomKept;
    Bus.SelfKept(s.mem);
    if |ins| == 0 {
      s' := s;
    } else {
      var c := s.guest.(r := s.guest.r[REG_PC := ins[0].pc]);
      StaleEntry(s.guest, ins[0]);
      var s1 := SimOp(h, env, ins[0], OpsCode(env, ins[1..], k), s, c);
      InsideKept(h, env, s, s1, ins[0], Executor.Execute(c, s.mem, ins[0]));
      s' := RunFaulted(h, env, ins[1..], k, s1);
      Bus.RomKeptTrans(s.mem, s1.mem, s'.mem);
    }
  }

  lemma NextEntry(c: CpuState, g: CpuState, i: Insn)
    requires Tracks(c, g) && g.itstate == 0 && c.Pc() == i.pc
    ensures Entry(c, g, i)
  {
  }

  /** The block's instructions, from a state the interpreter agrees with. */
  lemma {:induction false} RunOps(h: X.Host, env: Env, ins: seq<Insn>, k: Code, s: X.State, c: CpuState)
    returns (s': X.State)
    requires |ins| > 0 && AllNative(ins) && Chain(ins)
    requires Inside(h, env, s) && s.x.rbx == 0 && Entry(c, s.guest, ins[0])
    ensures Exec(h, OpsCode(env, ins, k), s) == Exec(h, k, s')
    ensures Inside(h, env, s') && SameFrame(s, s') && Bus.RomKept(s.mem, s'.mem)
    ensures Follows(s', ins, Interpret(c, s.mem, ins))
    decreases |ins|
  {
    hide Exec, OpCode, Executor.Execute, Entry, NativeForm, Ready, EnvFits, Tracks, Quiet, Bus.RomKept;
    var i, rest := ins[0], ins[1..];
    var o := Executor.Execute(c, s.mem, i);
    var s1 := SimOp(h, env, i, OpsCode(env, rest, k), s, c);
    InsideKept(h, env, s, s1, i, o);
    if !o.ok {
      s' := RunFaulted(h, env, rest, k, s1);
      Bus.RomKeptTrans(s.mem, s1.mem, s'.mem);
    } else if |rest| == 0 {
      s' := s1;
    } else {
      assert !IsBranch(i.op) && rest[0].pc == Add32(i.pc, i.size);
      assert Chain(rest);
      NextEntry(o.c, s1.guest, rest[0]);
      s' := RunOps(h, env, rest, k, s1, o.c);
      Bus.RomKeptTrans(s.mem, s1.mem, s'.mem);
    }
  }

  /* Entering and leaving. */

  lemma FrameMeans()
    ensures Meaning(Plain(PushR15)) == X.Push(X.R15) && Meaning(Plain(PushR14)) == X.Push(X.R14)
    ensures Meaning(Plain(PushRbx)) == X.Push(X.RBX) && Meaning(Plain(PushRsi)) == X.Push(X.RSI)
  {
  }

  lemma ArgMeans()
    ensures Meaning(Plain(MovR15Rcx)) == X.MovRR(true, X.R15, X.RCX)
    ensures Meaning(Plain(MovR14Rdx)) == X.MovRR(true, X.R14, X.RDX)
  {
  }

  lemma UnframeMeans()
    ensures Meaning(Plain(PopR15)) == X.Pop(X.R15) && Meaning(Plain(PopR14)) == X.Pop(X.R14)
    ensures Meaning(Plain(PopRbx)) == X.Pop(X.RBX) && Meaning(Plain(PopRsi)) == X.Pop(X.RSI)
  {
  }

  /** rsp after the four pushes and the shadow space. */
  function Lowered(rsp: u64): u64 {
    X.Sub64(X.Sub64(X.Sub64(X.Sub64(X.Sub64(rsp, 8), 8), 8), 8), 32)
  }

  function Raised(rsp: u64): u64 {
    X.Add64(X.Add64(X.Add64(X.Add64(X.Add64(rsp, 32), 8), 8), 8), 8)
  }

  lemma RaisedLowered(rsp: u64)
    ensures Raised(Lowered(rsp)) == rsp
  {
    hide X.Add64, X.Sub64;
    var a := X.Sub64(rsp, 8);
    var b := X.Sub64(a, 8);
    var c := X.Sub64(b, 8);
    var d := X.Sub64(c, 8);
    RspBack(d, 32);
    RspBack(c, 8);
    RspBack(b, 8);
    RspBack(a, 8);
    RspBack(rsp, 8);
  }

  lemma RunSaves(h: X.Host, k: Code, s: X.State) returns (s': X.State)
    requires s.status == X.Running
    ensures Exec(h, P(PushR15, P(PushR14, P(PushRbx, P(PushRsi, k)))), s) == Exec(h, k, s')
    ensures s' == s.(x := s.x.(rsp := s'.x.rsp), stack := [s.x.rsi, s.x.rbx, s.x.r14, s.x.r15] + s.stack,
      time := s'.time)
    ensures s'.x.rsp == X.Sub64(X.Sub64(X.Sub64(X.Sub64(s.x.rsp, 8), 8), 8), 8)
  {
    hide Exec, Meaning, X.Sub64;
    FrameMeans();
    var k3 := P(PushRsi, k);
    var k2 := P(PushRbx, k3);
    var s1 := DoPush(h, Plain(PushR15), X.R15, P(PushR14, k2), s);
    var s2 := DoPush(h, Plain(PushR14), X.R14, k2, s1);
    var s3 := DoPush(h, Plain(PushRbx), X.RBX, k3, s2);
    s' := DoPush(h, Plain(PushRsi), X.RSI, k, s3);
    assert s'.stack == [s.x.rsi, s.x.rbx, s.x.r14, s.x.r15] + s.stack;
  }

  lemma RunArgs(h: X.Host, k: Code, s: X.State) returns (s': X.State)
    requires s.status == X.Running
    ensures Exec(h, P(MovR15Rcx, P(MovR14Rdx, k)), s) == Exec(h, k, s')
    ensures s' == s.(x := s.x.(r15 := s.x.rcx, r14 := s.x.rdx), time := s'.time)
  {
    hide Exec, Meaning;
    ArgMeans();
    var s1 := DoMov(h, Plain(MovR15Rcx), true, X.R15, X.RCX, P(MovR14Rdx, k), s);
    s' := DoMov(h, Plain(MovR14Rdx), true, X.R14, X.RDX, k, s1);
  }

  lemma RunShadow(h: X.Host, k: Code, s: X.State) returns (s': X.State)
    requires s.status == X.Running
    ensures Exec(h, B(SubRsp, 32, k), s) == Exec(h, k, s')
    ensures |s'.stack| == |s.stack| + 4 && s'.stack[4..] == s.stack
    ensures s' == s.(x := s.x.(rsp := X.Sub64(s.x.rsp, 32)), stack := s'.stack, fl := s'.fl, time := s'.time)
  {
    hide Exec, X.Sub64, X.NoFlags, X.Fresh;
    s' := DoReserve(h, k, s, 32);
    assert s'.stack == X.Fresh(h.noise(s.time), 4) + s.stack;
  }

  lemma RunPrologue(h: X.Host, k: Code, s: X.State) returns (s': X.State)
    requires s.status == X.Running
    ensures Exec(h, Prologue(k), s) == Exec(h, k, s')
    ensures |s'.stack| == |s.stack| + 8 && s'.stack[4..] == [s.x.rsi, s.x.rbx, s.x.r14, s.x.r15] + s.stack
    ensures s' == s.(x := s.x.(rsp := Lowered(s.x.rsp), r15 := s.x.rcx, r14 := s.x.rdx),
                     stack := s'.stack, fl := s'.fl, time := s'.time)
  {
    hide Exec, X.Sub64;
    var k2 := P(MovR15Rcx, P(MovR14Rdx, k));
    var s1 := RunSaves(h, B(SubRsp, 32, k2), s);
    var s2 := RunShadow(h, k2, s1);
    s' := RunArgs(h, k, s2);
  }

  lemma RunPops(h: X.Host, k: Code, s: X.State) returns (s': X.State)
    requires s.status == X.Running && |s.stack| >= 4
    ensures Exec(h, P(PopRsi, P(PopRbx, P(PopR14, P(PopR15, k)))), s) == Exec(h, k, s')
    ensures s' == s.(x := s.x.(rsi := s.stack[0], rbx := s.stack[1], r14 := s.stack[2], r15 := s.stack[3],
      rsp := s'.x.rsp),
                     stack := s.stack[4..], time := s'.time)
    ensures s'.x.rsp == X.Add64(X.Add64(X.Add64(X.Add64(s.x.rsp, 8), 8), 8), 8)
  {
    hide Exec, Meaning, X.Add64;
    UnframeMeans();
    var k3 := P(PopR15, k);
    var k2 := P(PopR14, k3);
    var s1 := DoPop(h, Plain(PopRsi), X.RSI, P(PopRbx, k2), s);
    var s2 := DoPop(h, Plain(PopRbx), X.RBX, k2, s1);
    var s3 := DoPop(h, Plain(PopR14), X.R14, k3, s2);
    s' := DoPop(h, Plain(PopR15), X.R15, k, s3);
    assert s'.stack == s.stack[4..];
  }

  lemma RunUnwind(h: X.Host, k: Code, s: X.State) returns (s': X.State)
    requires s.status == X.Running && |s.stack| >= 8
    ensures Exec(h, Unwind(k), s) == Exec(h, k, s')
    ensures s' == s.(x := s.x.(rsi := s.stack[4], rbx := s.stack[5], r14 := s.stack[6], r15 := s.stack[7],
      rsp := Raised(s.x.rsp)),
                     stack := s.stack[8..], fl := s'.fl, time := s'.time)
  {
    hide Exec, X.Add64, X.NoFlags;
    var k2 := P(PopRsi, P(PopRbx, P(PopR14, P(PopR15, k))));
    var s1 := DoRelease(h, k2, s, 32);
    assert s1.stack == s.stack[4..];
    s' := RunPops(h, k, s1);
    assert s.stack[4..][4..] == s.stack[8..];
  }

  lemma EndMeans()
    ensures Meaning(Plain(ClearFail)) == X.AluRR(X.XOR, false, X.RBX, X.RBX)
    ensures Meaning(Plain(TestBl)) == X.Alu8RR(X.TEST, X.BL, X.BL)
    ensures Meaning(Plain(XorAlAl)) == X.Alu8RR(X.XOR, X.AL, X.AL)
    ensures Meaning(Plain(MovAl1)) == X.MovR8I(X.AL, 1)
    ensures Meaning(Jcc8(X.CcE, 21)) == X.Jcc(X.CcE, 21)
  {
  }

  lemma RunClearFail(h: X.Host, k: Code, s: X.State) returns (s': X.State)
    requires s.status == X.Running
    ensures Exec(h, P(ClearFail, k), s) == Exec(h, k, s')
    ensures s' == s.(x := s.x.(rbx := 0), fl := s'.fl, time := s'.time)
  {
    hide Exec, Meaning, X.AluFlags, X.Lo32, And32, Or32, Xor32, Add32, Sub32;
    EndMeans();
    XorSelf(X.Lo32(s.x.rbx));
    s' := DoAlu(h, Plain(ClearFail), X.XOR, X.RBX, X.RBX, k, s);
  }

  lemma TestBlByte(h: X.Host, s: X.State, v: u8)
    ensures X.Alu8(h, s, X.TEST, X.BL, v, v) == s.(fl := X.NoFlags(h, s).(zf := v == 0))
  {
    hide X.NoFlags, And32, Or32, Xor32, Add32, Sub32, X.PutByte;
    AndSelf(v);
  }

  /** test bl, bl; jz past the failing exit */
  lemma RunTestFail(h: X.Host, k: Code, k': Code, s: X.State) returns (s': X.State)
    requires s.status == X.Running && s.x.rbx < 2 && Skip(k, 21) == Some(k')
    ensures Exec(h, P(TestBl, Then(Jcc8(X.CcE, 21), k)), s) == Exec(h, if s.x.rbx == 0 then k' else k, s')
    ensures s' == s.(fl := s'.fl, time := s'.time)
  {
    hide Exec, Skip, Meaning, X.Effect, X.NoFlags, X.Alu8, X.GetByte;
    EndMeans();
    BlByte(s.x);
    TestBlByte(h, s, s.x.rbx);
    var s1 := DoAlu8(h, Plain(TestBl), X.TEST, X.BL, X.BL, Then(Jcc8(X.CcE, 21), k), s);
    if s.x.rbx == 0 {
      s' := Jump(h, Jcc8(X.CcE, 21), k, 21, k', s1);
    } else {
      s' := Go(h, Jcc8(X.CcE, 21), k, s1);
      StepJump(h, X.Jcc(X.CcE, 21), s1);
    }
  }

  lemma UnwindSizes()
    ensures Size(Imm8(AddRsp, 32)) + Size(Plain(PopRsi)) + Size(Plain(PopRbx)) + Size(Plain(PopR14)) == 8
    ensures Size(Plain(PopR15)) == 2 && Size(Plain(XorAlAl)) + Size(Plain(RetIns)) == 3 && Size(SetHalted) == 8
  {
  }

  lemma SpanFailExit(k: Code)
    ensures Span(Then(SetHalted, Unwind(P(XorAlAl, P(RetIns, k)))), 21, k)
  {
    hide Skip, Size, Span;
    UnwindSizes();
    var k3 := P(XorAlAl, P(RetIns, k));
    var k2 := P(PopR15, k3);
    var c := Then(SetHalted, Unwind(k3));
    Span1(SetHalted, Unwind(k3));
    Span4(Imm8(AddRsp, 32), Plain(PopRsi), Plain(PopRbx), Plain(PopR14), k2);
    Span1(Plain(PopR15), k3);
    Span2(Plain(XorAlAl), Plain(RetIns), k);
    Join(c, 8, Unwind(k3), 8, k2);
    Join(c, 16, k2, 2, k3);
    Join(c, 18, k3, 3, k);
  }

  lemma XorAlByte(h: X.Host, s: X.State, v: u8)
    ensures X.Alu8(h, s, X.XOR, X.AL, v, v) == X.SetB(s.(fl := X.NoFlags(h, s).(zf := true)), X.AL, 0)
  {
    hide X.NoFlags, And32, Or32, Xor32, Add32, Sub32, X.SetB;
    XorSelf(v);
  }

  /** xor al, al; ret */
  lemma RunReturnFalse(h: X.Host, k: Code, s: X.State) returns (s': X.State)
    requires s.status == X.Running
    ensures Exec(h, P(XorAlAl, P(RetIns, k)), s) == s'
    ensures s' == s.(x := s.x.(rax := s'.x.rax), fl := s'.fl, time := s'.time, status := X.Returned)
    ensures X.GetByte(s'.x, X.AL) == 0
  {
    hide Exec, Meaning, X.NoFlags, X.Alu8, X.GetByte, X.LowByte;
    EndMeans();
    XorAlByte(h, s, X.GetByte(s.x, X.AL));
    var s1 := DoAlu8(h, Plain(XorAlAl), X.XOR, X.AL, X.AL, P(RetIns, k), s);
    ByteBack(s.x, X.AL, 0);
    DoRet(h, k, s1);
    s' := Exec(h, P(RetIns, k), s1);
  }

  /** mov al, 1; ret */
  lemma RunReturnTrue(h: X.Host, k: Code, s: X.State) returns (s': X.State)
    requires s.status == X.Running
    ensures Exec(h, P(MovAl1, P(RetIns, k)), s) == s'
    ensures s' == s.(x := s.x.(rax := s'.x.rax), fl := s'.fl, time := s'.time, status := X.Returned)
    ensures X.GetByte(s'.x, X.AL) == 1
  {
    hide Exec, Meaning, X.NoFlags, X.GetByte, X.LowByte;
    EndMeans();
    var s1 := DoMovByteImm(h, Plain(MovAl1), X.AL, 1, P(RetIns, k), s);
    ByteBack(s.x, X.AL, 1);
    DoRet(h, k, s1);
    s' := Exec(h, P(RetIns, k), s1);
  }

  /** What the caller of a thunk gets back: its own registers and stack, the result in al,
      and on failure a halted core. */
  ghost predicate Returns(s: X.State, s': X.State, ok: bool, saved: seq<u64>) 
    requires |saved| == 4 && |s.stack| >= 8
  {
    && s'.status == X.Returned && X.GetByte(s'.x, X.AL) == (if ok then 1 else 0)
    && s'.mem == s.mem && s'.guest == (if ok then s.guest else s.guest.(halted := true))
    && s'.x.rsi == saved[0] && s'.x.rbx == saved[1] && s'.x.r14 == saved[2] && s'.x.r15 == saved[3]
    && s'.x.rsp == Raised(s.x.rsp) && s'.stack == s.stack[8..]
  }

  lemma RunEpilogue(h: X.Host, k: Code, s: X.State) returns (s': X.State)
    requires Ready(h, s) && s.x.rbx < 2 && |s.stack| >= 8
    ensures Exec(h, Epilogue(k), s) == s'
    ensures Returns(s, s', s.x.rbx == 0, s.stack[4..8])
  {
    hide Exec, Skip, Raised, X.GetByte, Unwind, HostOk;
    var good := Unwind(P(MovAl1, P(RetIns, k)));
    var bad := Then(SetHalted, Unwind(P(XorAlAl, P(RetIns, good))));
    SpanFailExit(good);
    var s1 := RunTestFail(h, bad, good, s);
    if s.x.rbx == 0 {
      var s2 := RunUnwind(h, P(MovAl1, P(RetIns, k)), s1);
      s' := RunReturnTrue(h, k, s2);
    } else {
      var s2 := DoHalt(h, Unwind(P(XorAlAl, P(RetIns, good))), s1);
      var s3 := RunUnwind(h, P(XorAlAl, P(RetIns, good)), s2);
      s' := RunReturnFalse(h, good, s3);
    }
  }

  /** The fall-through PC store. */
  lemma RunFallThrough(h: X.Host, last: Insn, k: Code, s: X.State) returns (s': X.State)
    requires Ready(h, s)
    ensures Exec(h, FallThrough(last, k), s) == Exec(h, k, s')
    ensures s' == s.(guest := s'.guest, time := s'.time)
    ensures s'.guest ==
      if IsBranch(last.op) then s.guest else s.guest.(r := s.guest.r[REG_PC := Add32(last.pc, last.size)])
  {
    hide Exec, HostOk;
    if IsBranch(last.op) {
      s' := s;
    } else {
      s' := DoStPc(h, Add32(last.pc, last.size), k, s);
    }
  }

  /** The calling convention of a thunk: processor in rcx, bus in rdx. */
  ghost predicate Called(h: X.Host, env: Env, s: X.State) {
    && s.status == X.Running && s.x.rcx == h.cpu && s.x.rdx == h.bus
    && HostOk(h, s.mem) && EnvFits(h, env, s.mem)
  }

  /** The state a thunk leaves, against folding the interpreter over its block. */
  ghost predicate Agrees(s: X.State, s': X.State, o: Outcome) {
    && s'.status == X.Returned
    && s'.x.rbx == s.x.rbx && s'.x.rsi == s.x.rsi && s'.x.r14 == s.x.r14 && s'.x.r15 == s.x.r15
    && s'.x.rsp == s.x.rsp && s'.stack == s.stack && Bus.RomKept(s.mem, s'.mem)
    && (X.GetByte(s'.x, X.AL) == 1 <==> o.ok) && (X.GetByte(s'.x, X.AL) == 0 <==> !o.ok)
    && (if o.ok then s'.guest == o.c.(cycles := s.guest.cycles) && s'.mem == o.m else s'.guest.halted)
  }

  lemma RunEntry(h: X.Host, env: Env, ins: seq<Insn>, k: Code, s: X.State) returns (s': X.State)
    requires Called(h, env, s) && s.guest.itstate == 0
    ensures Exec(h, Prologue(P(ClearFail, k)), s) == Exec(h, k, s')
    ensures Inside(h, env, s') && s'.x.rbx == 0 && s'.guest == s.guest && s'.mem == s.mem
    ensures s'.x.rsp == Lowered(s.x.rsp)
    ensures |s'.stack| == |s.stack| + 8 && s'.stack[4..] == [s.x.rsi, s.x.rbx, s.x.r14, s.x.r15] + s.stack
  {
    hide Exec, Prologue, Lowered, HostOk, SramOk;
    var s1 := RunPrologue(h, P(ClearFail, k), s);
    s' := RunClearFail(h, k, s1);
  }

  /** With the PC of the last instruction in place, the guest is the interpreter's processor. */
  lemma PcStored(ins: seq<Insn>, g: CpuState, c: CpuState, g': CpuState)
    requires |ins| > 0 && Tracks(c, g) && PcLeft(ins, g, c)
    requires var last := ins[|ins| - 1];
      g' == if IsBranch(last.op) then g else g.(r := g.r[REG_PC := Add32(last.pc, last.size)])
    ensures g' == c.(cycles := g.cycles)
  {
    if IsBranch(ins[|ins| - 1].op) {
      assert g.r[REG_PC := c.Pc()] == g.r;
    }
  }

  /** A block: consecutive instructions of native form, a branch only last. */
  predicate Block(ins: seq<Insn>) {
    |ins| > 0 && AllNative(ins) && Chain(ins)
  }

  lemma Unstacked(st: seq<u64>, saved: seq<u64>, rest: seq<u64>)
    requires |saved| == 4 && |st| == |rest| + 8 && st[4..] == saved + rest
    ensures st[4..8] == saved && st[8..] == rest
  {
    assert st[4..8] == st[4..][..4];
    assert st[8..] == st[4..][4..];
  }

  /** The described code of a block agrees with the interpreter. */
  lemma ExecBlock(h: X.Host, env: Env, ins: seq<Insn>, k: Code, s: X.State)
    requires Called(h, env, s) && Block(ins) && s.guest.itstate == 0 && s.guest.Pc() == ins[0].pc
    ensures Agrees(s, Exec(h, BlockCode(env, ins, k), s), Interpret(s.guest, s.mem, ins))
  {
    hide Exec, Prologue, OpsCode, FallThrough, Epilogue, Lowered, Raised, Interpret, Tracks, X.GetByte, EnvFits, Ready,
         HostOk, AllNative, Chain, PcLeft;
    var last := ins[|ins| - 1];
    var end := FallThrough(last, Epilogue(k));
    var s1 := RunEntry(h, env, ins, OpsCode(env, ins, end), s);
    SelfEntry(s.guest, ins[0]);
    var s2 := RunOps(h, env, ins, end, s1, s.guest);
    var s3 := RunFallThrough(h, last, Epilogue(k), s2);
    FallReady(h, s2, s3);
    var s4 := RunEpilogue(h, k, s3);
    Unstacked(s1.stack, [s.x.rsi, s.x.rbx, s.x.r14, s.x.r15], s.stack);
    RaisedLowered(s.x.rsp);
    var o := Interpret(s.guest, s.mem, ins);
    if o.ok {
      PcStored(ins, s2.guest, o.c, s3.guest);
    }
  }

  lemma FallReady(h: X.Host, s: X.State, s': X.State)
    requires Ready(h, s) && s' == s.(guest := s'.guest, time := s'.time)
    ensures Ready(h, s')
  {
  }

  lemma SelfEntry(g: CpuState, i: Insn)
    requires g.itstate == 0 && g.Pc() == i.pc
    ensures Entry(g, g, i)
  {
    assert g.r[REG_PC := g.Pc()] == g.r;
  }
}

/** Which accepted instructions the emitted code simulates: those of NativeForm and no others.
    Every other form has a state from which native code and interpreter part. */
module NativeLimits {
  import opened Words
  import opened Cpu
  import opened Insn
  import opened Nvic
  import opened Codegen
  import opened NativeRun
  import opened NativeSteps
  import opened NativeMemory
  import opened NativeData
  import opened NativeAccess
  import opened NativeMulti
  import opened NativeOps
  import opened NativeForms
  import X = X86
  import Bus
  import Executor

  /* The question. */

  /** A machine about to run the emitted code of an instruction, and the processor the
      interpreter executes it from. */
  ghost predicate Starts(h: X.Host, env: Env, s: X.State, c: CpuState, i: Insn) {
    Ready(h, s) && EnvFits(h, env, s.mem) && s.x.rbx < 2 && Entry(c, s.guest, i)
  }

  /** From every state the emitted code does what the interpreter does. */
  ghost predicate Simulated(i: Insn) {
    forall h: X.Host, env: Env, s: X.State, c: CpuState ::
      Starts(h, env, s, c, i) ==> Simulates(s, Exec(h, OpCode(env, i, End), s), i, Executor.Execute(c, s.mem, i))
  }

  /** The sixteen-bit operations on three low registers. */
  predicate LowRegisters(op: Op) {
    op.AddReg? || op.SubReg? || op.AddImm3? || op.AddImm8? || op.SubImm3? || op.SubImm8? || op.AndReg? || op.OrrReg? ||
    op.EorReg? || op.CmpImm? || op.CmpReg? || op.CmnReg? || op.TstReg?
  }

  /** The operations whose flag-setting form with destination R15 decodes as another opcode. */
  predicate TestsWhenDiscarded(op: Op) { op.T32AndImm? || op.T32EorImm? || op.T32AddImm? || op.T32SubImm? }

  /** What the decoder guarantees of the instructions it produces, as far as it matters here. */
  predicate Decoded(i: Insn) {
    && (LowRegisters(i.op) ==> i.rn < 8 && i.rm < 8)
    && (TestsWhenDiscarded(i.op) ==> i.rd != REG_PC || !i.setFlags)
    && (i.op.T32OrrImm? ==> i.rn != REG_PC)
    && (i.op.T32CmpReg? || i.op.T32CmnReg? ==> i.shiftN < 32)
    && (i.op.T32LdrLit? ==> i.imm < 0x1000)
    && (i.op.MovReg? ==> i.size == 2)
    && (i.op.Pop? ==> REG_SP !in i.regs)
    && (i.op.BCond? ==> i.cond < 14)
    && (i.op.T32Bl? ==> i.size == 4)
  }

  /* From registers and memory to a machine. */

  function Zeros(): Regs { seq(16, j => 0) }

  function Guest(r: Regs): CpuState {
    CpuState(r, 0, 0, 0, 0, 0, 0, 0, 0, 0, Thread, 0, false, 0, 0, 0)
  }

  /** The emitted code, entered with these registers, a stale PC among them, leaves something
      else than the interpreter. */
  predicate Misses(i: Insn, r: Regs, m: Bus.Memory) {
    !Meets(i, Emitted(i, Guest(r), m), Executor.Execute(Guest(r[REG_PC := i.pc]), m, i))
  }

  /** A host none of whose regions is inlined. */
  function SomeHost(m: Bus.Memory): X.Host {
    X.Host(0, 0, 1, 2, 0, |m|, (t: nat) => X.Noise((j: nat) => 0, (j: nat) => false))
  }

  function SomeState(r: Regs, m: Bus.Memory): X.State {
    X.State(X.RegFile(0, 0, 0, 0, 0, 0, 0, 0, 0, 0, 0, 0, 0, 0, 0, 0), X.Flags(false, false, false, false), [],
      Guest(r), m, 0, X.Running)
  }

  lemma SomeStarts(i: Insn, r: Regs, m: Bus.Memory)
    ensures Starts(SomeHost(m), Env(1, 2, None), SomeState(r, m), Guest(r[REG_PC := i.pc]), i)
  {
  }

  lemma MissesRefute(i: Insn, r: Regs, m: Bus.Memory)
    requires Accepted(i) && Misses(i, r, m)
    ensures !Simulated(i)
  {
    hide Exec, OpCode, Executor.Execute, Starts, Simulates, Emitted, Effected, Meets, IsData, IsMemory, IsMulti,
         IsBranch, NativeOk, Supports;
    var h, env, s, c := SomeHost(m), Env(1, 2, None), SomeState(r, m), Guest(r[REG_PC := i.pc]);
    SomeStarts(i, r, m);
    var s' := RunSome(h, env, i, s, c);
    SimulatesIsMeets(s, s', i, Emitted(i, s.guest, s.mem), Executor.Execute(c, s.mem, i));
  }

  lemma RunSome(h: X.Host, env: Env, i: Insn, s: X.State, c: CpuState) returns (s': X.State)
    requires Starts(h, env, s, c, i) && Supports(i.op) && env.sram.None?
    ensures s' == Exec(h, OpCode(env, i, End), s) && Effected(s, s', Emitted(i, s.guest, s.mem))
  {
    hide OpCode, Emitted, Effected, IsData, IsMemory, IsMulti, IsBranch, HostOk, BaseSafe, Supports, Entry;
    s' := RunOp(h, env, i, End, s);
  }

  lemma FormsSimulate(i: Insn)
    requires NativeForm(i)
    ensures Simulated(i)
  {
    hide OpCode, Executor.Execute, Simulates, NativeForm, Entry, Ready, EnvFits;
    forall h: X.Host, env: Env, s: X.State, c: CpuState | Starts(h, env, s, c, i)
      ensures Simulates(s, Exec(h, OpCode(env, i, End), s), i, Executor.Execute(c, s.mem, i))
    {
      var s' := SimOp(h, env, i, End, s, c);
    }
  }

  /* Data processing. */

  /** The zero flag, read back from a word of four flags. */
  lemma ZeroFlag(apsr: u32, n: bool, z: bool, c: bool, v: bool)
    ensures Nzcv(apsr, n, z, c, v) / 0x4000_0000 % 2 == if z then 1 else 0
  {
    var high := (if n then 2 else 0) + if z then 1 else 0;
    var low := apsr % 0x1000_0000 + Flag(c, APSR_C) + Flag(v, APSR_V);
    DivModUnique(Nzcv(apsr, n, z, c, v), 0x4000_0000, high, low);
  }

  lemma SubDiffers(apsr: u32, a: u32, b: u32, a': u32, b': u32)
    requires (a == b) != (a' == b')
    ensures FlagsSub(apsr, a, b, Sub32(a, b)) != FlagsSub(apsr, a', b', Sub32(a', b'))
  {
    hide FlagsSub, Nzcv;
    SubFlagsMeaning(apsr, a, b);
    SubFlagsMeaning(apsr, a', b');
    var r, r' := Sub32(a, b), Sub32(a', b');
    ZeroFlag(apsr, Signed(r) < 0, r == 0, a - b >= 0, !FitsSigned(Signed(a) - Signed(b)));
    ZeroFlag(apsr, Signed(r') < 0, r' == 0, a' - b' >= 0, !FitsSigned(Signed(a') - Signed(b')));
  }

  lemma AddDiffers(apsr: u32, a: u32, b: u32, a': u32, b': u32)
    requires (Add32(a, b) == 0) != (Add32(a', b') == 0)
    ensures FlagsAdd(apsr, a, b, Add32(a, b), false) != FlagsAdd(apsr, a', b', Add32(a', b'), false)
  {
    hide FlagsAdd, Nzcv;
    AddFlagsMeaning(apsr, a, b, false);
    AddFlagsMeaning(apsr, a', b', false);
    var r, r' := Sum(a, b, false), Sum(a', b', false);
    ZeroFlag(apsr, Signed(r) < 0, r == 0, a + b >= 0x1_0000_0000, !FitsSigned(Signed(a) + Signed(b)));
    ZeroFlag(apsr, Signed(r') < 0, r' == 0, a' + b' >= 0x1_0000_0000, !FitsSigned(Signed(a') + Signed(b')));
  }

  const TOP: u32 := 0x8000_0000

  lemma {:induction false} PowGrows(n: nat)
    requires n > 0
    ensures Pow2(n) >= 2 && Pow2(n) == 2 * Pow2(n - 1)
  {
  }

  /** Any left shift drops the top bit. */
  lemma TopLeft(n: nat)
    requires n > 0
    ensures ShiftLeft(TOP, n) == 0
  {
    PowGrows(n);
    DivModUnique(TOP * Pow2(n), 0x1_0000_0000, Pow2(n - 1), 0);
  }

  lemma HalfRight(v: nat, p: nat)
    requires p >= 2
    ensures v / p <= v / 2
  {
    var q := v / p;
    assert v == q * p + v % p;
    assert q * p == q * 2 + q * (p - 2);
    assert q * (p - 2) >= 0;
  }

  /** Shifting moves the top bit, whatever the kind of shift. */
  lemma ShiftMoves(kind: nat, n: nat)
    requires 0 < n < 32
    ensures Executor.T32Shift(TOP, kind, n) != TOP
  {
    PowGrows(n);
    HalfRight(TOP, Pow2(n));
    HalfRight(Not32(TOP), Pow2(n));
    TopLeft(n);
    TopLeft(32 - n);
    Pow32();
    OrZero(ShiftRight(TOP, n), 32);
  }

  lemma ShiftZero(kind: nat, n: nat)
    ensures Executor.T32Shift(0, kind, n) == 0 && ShiftLeft(0, n) == 0
  {
    SmallMod(0, Pow2(n));
    SmallMod(0, Pow2(if n >= 32 then 31 else n));
    Pow32();
    OrZero(0, 32);
    if 0 < n <= 32 {
      assert ShiftLeft(0, 32 - n) == 0;
    }
  }

  /** What the interpreter leaves, register by register. */
  lemma DataOutcome(r: Regs, i: Insn, m: Bus.Memory)
    requires IsData(i.op) && !i.op.MovReg?
    ensures var c := Guest(r[REG_PC := i.pc]); var o, d := Executor.Execute(c, m, i), Executor.DataProcessing(c, i);
      o.ok && o.c.apsr == d.apsr && forall j: Reg :: j != REG_PC ==> o.c.r[j] == d.r[j]
  {
    hide IsData, Executor.DataProcessing, Executor.Execute, Executor.Perform;
    var c := Guest(r[REG_PC := i.pc]);
    PerformData(c, m, i, Add32(i.pc, i.size));
    OutcomeOf(c, m, i, Executor.Next(Executor.DataProcessing(c, i), m, Add32(i.pc, i.size)));
  }

  /** Different flags, or a different word in a register other than R15, is a miss. */
  lemma DataMisses(r: Regs, i: Insn, m: Bus.Memory, j: Reg)
    requires IsData(i.op) && !i.op.MovReg?
    requires var d, e := Executor.DataProcessing(Guest(r[REG_PC := i.pc]), i), Shaped(Guest(r), ShapeOf(i), i.rd);
      d.apsr != e.apsr || (j != REG_PC && d.r[j] != e.r[j])
    ensures Misses(i, r, m)
  {
    hide IsData, Executor.DataProcessing, Executor.Execute, ShapeOf, Shaped;
    DataOutcome(r, i, m);
  }

  /** Zero where the other word is not. */
  function Unlike(a: u32): u32 { if a == 0 then 1 else 0 }

  /** R15 against another register: the interpreter adds four, native code reads the stale word. */
  lemma CompareMisses(i: Insn, m: Bus.Memory) returns (r: Regs)
    requires i.op.CmpRegT2? && !DataForm(i)
    ensures Misses(i, r, m)
  {
    hide FlagsSub, Sub32, Misses, Add32;
    var pc := Add32(i.pc, 4);
    r := Zeros()[REG_PC := Unlike(pc)];
    var a, b := if i.rn == REG_PC then pc else 0, if i.rm == REG_PC then pc else 0;
    SubDiffers(0, a, b, r[i.rn], r[i.rm]);
    DataMisses(r, i, m, 0);
  }

  lemma T32CompareMisses(i: Insn, m: Bus.Memory) returns (r: Regs)
    requires i.op.T32CmpReg? && i.shiftN < 32 && !DataForm(i)
    ensures Misses(i, r, m)
  {
    hide FlagsSub, Sub32, Executor.T32Shift, Misses;
    var v := Executor.T32Shift(i.pc, i.shiftType, i.shiftN);
    ShiftZero(i.shiftType, i.shiftN);
    if i.rn == REG_PC && i.rm == REG_PC {
      r := Zeros();
      SubDiffers(0, i.pc, v, 0, 0);
    } else if i.rn == REG_PC {
      r := Zeros()[REG_PC := Unlike(i.pc)];
      SubDiffers(0, i.pc, 0, Unlike(i.pc), 0);
    } else if i.rm == REG_PC {
      r := Zeros()[i.rn := v][REG_PC := Unlike(v)];
      SubDiffers(0, v, v, v, Unlike(v));
    } else {
      ShiftMoves(i.shiftType, i.shiftN);
      r := Zeros()[i.rn := TOP][i.rm := TOP];
      SubDiffers(0, TOP, Executor.T32Shift(TOP, i.shiftType, i.shiftN), TOP, TOP);
    }
    DataMisses(r, i, m, 0);
  }

  lemma T32NegatedMisses(i: Insn, m: Bus.Memory) returns (r: Regs)
    requires i.op.T32CmnReg? && i.shiftN < 32 && !DataForm(i)
    ensures Misses(i, r, m)
  {
    hide FlagsAdd, Executor.T32Shift, Misses;
    var v := Executor.T32Shift(i.pc, i.shiftType, i.shiftN);
    ShiftZero(i.shiftType, i.shiftN);
    if i.rn == REG_PC && i.rm == REG_PC {
      var p := Unlike(Add32(i.pc, v));
      r := Zeros()[REG_PC := p];
      AddDiffers(0, i.pc, v, p, p);
    } else if i.rn == REG_PC {
      r := Zeros()[REG_PC := Unlike(i.pc)];
      AddDiffers(0, i.pc, 0, Unlike(i.pc), 0);
    } else if i.rm == REG_PC {
      r := Zeros()[REG_PC := Unlike(v)];
      AddDiffers(0, 0, v, 0, Unlike(v));
    } else {
      ShiftMoves(i.shiftType, i.shiftN);
      r := Zeros()[i.rn := TOP][i.rm := TOP];
      AddDiffers(0, TOP, Executor.T32Shift(TOP, i.shiftType, i.shiftN), TOP, TOP);
    }
    DataMisses(r, i, m, 0);
  }

  lemma ConstantFlags(c: CpuState, i: Insn)
    ensures i.op.T32CmpImm? || i.op.T32CmnImm? ==>
      Executor.DataProcessing(c, i).apsr == Shaped(c, ShapeOf(i), i.rd).apsr
    ensures i.op.T32CmpImm? ==>
      Shaped(c, ShapeOf(i), i.rd).apsr == FlagsSub(c.apsr, c.r[i.rn], i.imm, Sub32(c.r[i.rn], i.imm))
    ensures i.op.T32CmnImm? ==>
      Shaped(c, ShapeOf(i), i.rd).apsr == FlagsAdd(c.apsr, c.r[i.rn], i.imm, Add32(c.r[i.rn], i.imm), false)
  {
    hide FlagsSub, FlagsAdd;
  }

  lemma ConstantMisses(i: Insn, m: Bus.Memory) returns (r: Regs)
    requires i.op.T32CmpImm? && !DataForm(i)
    ensures Misses(i, r, m)
  {
    hide FlagsSub, Misses, Add32, Sub32, Executor.DataProcessing, Shaped;
    var p := if i.pc == i.imm then Unlike(i.imm) else i.imm;
    r := Zeros()[REG_PC := p];
    ConstantFlags(Guest(r), i);
    ConstantFlags(Guest(r[REG_PC := i.pc]), i);
    SubDiffers(0, i.pc, i.imm, p, i.imm);
    DataMisses(r, i, m, 0);
  }

  /** A word that makes the sum zero, unless another word already does. */
  function Summand(a: u32, imm: u32): u32 {
    if Add32(a, imm) == 0 then Sub32(1, imm) else Sub32(0, imm)
  }

  lemma SummandDiffers(a: u32, imm: u32)
    ensures (Add32(a, imm) == 0) != (Add32(Summand(a, imm), imm) == 0)
  {
  }

  lemma NegatedConstantMisses(i: Insn, m: Bus.Memory) returns (r: Regs)
    requires i.op.T32CmnImm? && !DataForm(i)
    ensures Misses(i, r, m)
  {
    hide FlagsAdd, Misses, Add32, Sub32, Summand, Executor.DataProcessing, Shaped;
    var p := Summand(i.pc, i.imm);
    SummandDiffers(i.pc, i.imm);
    r := Zeros()[REG_PC := p];
    ConstantFlags(Guest(r), i);
    ConstantFlags(Guest(r[REG_PC := i.pc]), i);
    AddDiffers(0, i.pc, i.imm, p, i.imm);
    DataMisses(r, i, m, 0);
  }

  /** The operations with a destination and a constant. */
  predicate Combines(op: Op) {
    TestsWhenDiscarded(op) || op.T32Addw? || op.T32Subw?
  }

  lemma AllOnes(v: u32)
    ensures And32(0xFFFF_FFFF, v) == v && And32(0, v) == 0
  {
    Pow32();
    AndSwap(0xFFFF_FFFF, v, 32);
    AndSwap(0, v, 32);
    AndZero(v, 32);
    AndLow(v, 32, 32);
    SmallMod(v, 0x1_0000_0000);
  }

  lemma {:induction false} AndSwap(x: nat, y: nat, n: nat)
    ensures And(x, y, n) == And(y, x, n)
  {
    if n != 0 {
      AndSwap(x / 2, y / 2, n - 1);
    }
  }

  /** A stale R15 gives another result. */
  lemma ResultMisses(i: Insn, m: Bus.Memory) returns (r: Regs)
    requires Combines(i.op) && Decoded(i) && !DataForm(i)
    ensures Misses(i, r, m)
  {
    hide FlagsSub, FlagsAdd, FlagsNz, And32, Or32, Xor32, Misses, Result, Add32, Sub32, Executor.DataProcessing,
         Shaped, ShapeOf;
    var p := if i.op.T32AndImm? then (if And32(i.pc, i.imm) == 0 then 0xFFFF_FFFF else 0) else Unlike(i.pc);
    AllOnes(i.imm);
    r := Zeros()[REG_PC := p];
    CombinesShape(i);
    var op := ShapeOf(i).op;
    CombinesInto(Guest(r[REG_PC := i.pc]), i);
    CombinesInto(Guest(r), i);
    WhereItGoes(i);
    ResultDiffers(op, i.pc, p, i.imm);
    DataMisses(r, i, m, i.rd);
  }

  lemma CombinesInto(c: CpuState, i: Insn)
    requires Combines(i.op)
    ensures Executor.DataProcessing(c, i).r[i.rd] == Result(ShapeOf(i).op, c.r[i.rn], i.imm)
      == Shaped(c, ShapeOf(i), i.rd).r[i.rd]
  {
    hide Executor.DataProcessing, ShapeOf, Updated, Result;
    CombinesShape(i);
    DataProcessingShape(c, i);
  }

  lemma CombinesShape(i: Insn)
    requires Combines(i.op)
    ensures IsData(i.op) && PlainData(i)
    ensures var sh := ShapeOf(i);
      !sh.op.ArMov? && !sh.op.ArOr? && sh.store && sh.rn == i.rn && sh.src == Const(i.imm) &&
        (sh.op.ArAnd? <==> i.op.T32AndImm?)
  {
  }

  /** The form fails only with R15 as an operand and not as the destination. */
  lemma WhereItGoes(i: Insn)
    requires Combines(i.op) && Decoded(i) && !DataForm(i)
    ensures i.rn == REG_PC && i.rd != REG_PC && (i.op.T32AndImm? ==> i.imm != 0)
  {
  }

  lemma ResultDiffers(op: Arith, a: u32, b: u32, v: u32)
    requires a != b && !op.ArMov? && !op.ArOr? && (op.ArAnd? ==> And32(a, v) != And32(b, v))
    ensures Result(op, a, v) != Result(op, b, v)
  {
    hide And32, Or32, Xor32;
    XorCancel(a, b, v);
  }

  lemma MoveMisses(i: Insn, m: Bus.Memory) returns (r: Regs)
    requires i.op.MovReg? && Decoded(i) && !DataForm(i)
    ensures Misses(i, r, m)
  {
    hide Executor.Execute, FlagsNz;
    var pc := Add32(i.pc, 4);
    r := if i.setFlags then Zeros() else if i.rd == REG_PC then Zeros()[i.rm := pc] else Zeros()[REG_PC := i.pc];
    var c := Guest(r[REG_PC := i.pc]);
    var v := Executor.HiReg(c, i.rm);
    PerformMove(c, m, i, Add32(i.pc, i.size));
    OutcomeOf(c, m, i, if i.rd == REG_PC then Executor.Next(c, m, Even(v))
      else Executor.Next(Executor.SetReg(c, i.rd, v), m, Add32(i.pc, i.size)));
    var o := Executor.Execute(c, m, i);
    assert o.ok && o.c.apsr == 0;
    if i.setFlags {
      FlagsNzMeaning(0, 0);
      assert Shaped(Guest(r), ShapeOf(i), i.rd).apsr != c.apsr;
    } else if i.rd == REG_PC {
      assert v == pc && Even(v) != Add32(i.pc, 2);
      assert o.c.Pc() == Even(v);
    } else {
      assert o.c.r[i.rd] == v;
      assert Shaped(Guest(r), ShapeOf(i), i.rd).r[i.rd] != v;
    }
  }

  /** The other data operations read no R15. */
  lemma PlainDataForm(i: Insn)
    requires IsData(i.op) && Decoded(i)
    requires !i.op.MovReg? && !i.op.CmpRegT2? && !i.op.T32CmpReg? && !i.op.T32CmnReg? && !i.op.T32CmpImm?
    requires !i.op.T32CmnImm? && !Combines(i.op)
    ensures DataForm(i)
  {
  }

  lemma DataRefuted(i: Insn)
    requires Accepted(i) && Decoded(i) && IsData(i.op) && !DataForm(i)
    ensures !Simulated(i)
  {
    hide Accepted, Misses, Simulated, DataForm, IsData, Decoded, Combines;
    var r: Regs;
    if i.op.MovReg? {
      r := MoveMisses(i, []);
    } else if i.op.CmpRegT2? {
      r := CompareMisses(i, []);
    } else if i.op.T32CmpReg? {
      Shifts(i);
      r := T32CompareMisses(i, []);
    } else if i.op.T32CmnReg? {
      Shifts(i);
      r := T32NegatedMisses(i, []);
    } else if i.op.T32CmpImm? {
      r := ConstantMisses(i, []);
    } else if i.op.T32CmnImm? {
      r := NegatedConstantMisses(i, []);
    } else {
      if !Combines(i.op) {
        PlainDataForm(i);
      }
      r := ResultMisses(i, []);
    }
    MissesRefute(i, r, []);
  }

  lemma Shifts(i: Insn)
    requires Decoded(i) && (i.op.T32CmpReg? || i.op.T32CmnReg?)
    ensures i.shiftN < 32
  {
  }

  /* Loads and stores. */

  const FILL: u32 := 0x8080_8080

  /** One writable region of bytes 0x80. */
  function Sample(base: u32, size: u32): Bus.Memory {
    [Bus.Region(base, true, seq(size, j => 0x80))]
  }

  /** One writable region, whatever it holds. */
  ghost predicate Open(m: Bus.Memory, base: u32, size: u32) {
    |m| == 1 && m[0].base == base && m[0].Size() == size && m[0].writable && base + size < 0x1_0000_0000
  }

  lemma SampleOpen(base: u32, size: u32)
    requires base + size < 0x1_0000_0000
    ensures Open(Sample(base, size), base, size)
  {
  }

  /** It answers inside and faults outside, and stays so under writes. */
  lemma OpenAnswers(m: Bus.Memory, base: u32, size: u32, a: u32, n: Bus.Width, v: u32)
    requires Open(m, base, size)
    ensures Bus.Read(m, a, n).Some? <==> base <= a && a + n <= base + size
    ensures Bus.Write(m, a, n, v).Some? <==> base <= a && a + n <= base + size
    ensures Bus.Write(m, a, n, v).Some? ==> Open(Bus.Write(m, a, n, v).value, base, size)
  {
    assert Bus.Find(m, a) == if m[0].Covers(a) then Some(0) else None;
    if Bus.Write(m, a, n, v).Some? {
      Bus.WriteKeeps(m, a, n, v);
    }
  }

  lemma SampleWord(base: u32, size: u32, a: u32)
    requires base + size < 0x1_0000_0000 && base <= a && a + 4 <= base + size
    ensures Bus.Read(Sample(base, size), a, 4) == Some(FILL)
  {
    var m := Sample(base, size);
    assert Bus.Find(m, a) == Some(0);
    var off := a - base;
    assert m[0].buf[off..off + 4] == [0x80, 0x80, 0x80, 0x80];
    FillBytes([0x80, 0x80, 0x80, 0x80]);
  }

  lemma FillBytes(s: seq<u8>)
    requires s == [0x80, 0x80, 0x80, 0x80]
    ensures LeVal(s) == FILL
  {
    var s1: seq<u8>, s2: seq<u8>, s3: seq<u8> := s[1..], s[2..], s[3..];
    assert s1[1..] == s2 && s2[1..] == s3 && s3[1..] == [];
    assert LeVal(s3) == 0x80 && LeVal(s2) == 0x8080 && LeVal(s1) == 0x80_8080;
  }

  /** A plain access on the interpreter's side, from the accesses the generator describes. */
  lemma AccessOutcome(r: Regs, m: Bus.Memory, i: Insn)
    requires IsMemory(i.op) && PlainAccess(i)
    ensures var q := r[REG_PC := i.pc]; var o := Executor.Execute(Guest(q), m, i);
      var e := PerformAll(q, m, AccessesOf(i)); o.ok == e.Some? && (o.ok ==> o.m == e.value.1)
  {
    hide AccessesOf, PerformAll, Executor.Execute, Executor.Perform, Executor.LoadStore, PlainAccess, IsMemory;
    var c, pc := Guest(r[REG_PC := i.pc]), Add32(i.pc, i.size);
    Loads(i.op);
    Executor.PerformsAccess(c, m, i, pc);
    LoadStoreShape(c, m, i, pc);
    OutcomeOf(c, m, i, Executor.LoadStore(c, m, i, pc));
  }

  lemma Loads(op: Op)
    requires IsMemory(op)
    ensures Executor.IsLoadStore(op)
  {
  }

  /** What counts as a miss: a fault on one side only, or different memory. */
  lemma MemoryMisses(i: Insn, r: Regs, m: Bus.Memory)
    requires IsMemory(i.op)
    requires var o, e := Executor.Execute(Guest(r[REG_PC := i.pc]), m, i), PerformAll(r, m, AccessesOf(i));
      o.ok != e.Some? || (o.ok && o.m != e.value.1)
    ensures Misses(i, r, m)
  {
    hide Executor.Execute, PerformAll, AccessesOf, IsMemory, IsData, Tracks, IsBranch;
    MemoryOp(i.op);
  }

  lemma MemoryOp(op: Op)
    requires IsMemory(op)
    ensures !IsData(op)
  {
  }

  /** Registers that put exactly one of the two addresses at zero. */
  lemma OpposedAddress(a: Address, pc: u32) returns (r: Regs)
    requires !PlainAddress(a)
    ensures (AddressOf(r[REG_PC := pc], a) == 0) != (AddressOf(r, a) == 0)
  {
    if a.Based? {
      hide Summand, Add32;
      SummandDiffers(pc, a.imm);
      r := Zeros()[REG_PC := Summand(pc, a.imm)];
    } else {
      r := Zeros()[REG_PC := Unlike(AddressOf(Zeros()[REG_PC := pc], a))];
    }
  }

  /** The bytes an instruction transfers. */
  function Extent(i: Insn): u32
    requires IsMemory(i.op)
  {
    if Double(i.op) then 8 else AccessesOf(i)[0].n
  }

  lemma Shapes(i: Insn)
    requires IsMemory(i.op)
    ensures var ts := AccessesOf(i);
      if Double(i.op) then
        ts == [Access(i.op.T32LdrdImm?, 4, i.rd, Based(i.rn, i.imm)),
               Access(i.op.T32LdrdImm?, 4, i.rs, Based(i.rn, Add32(i.imm, 4)))]
      else ts == [ts[0]]
    ensures AccessesOf(i)[0].a.Fixed? ==> AccessesOf(i)[0].load
  {
  }

  /** Over a region of just that many bytes at zero, they go through exactly at zero. */
  lemma OnlyAtZero(r: Regs, m: Bus.Memory, i: Insn)
    requires IsMemory(i.op) && Open(m, 0, Extent(i)) && (i.op.T32LdrdImm? ==> i.rd != i.rn)
    ensures PerformAll(r, m, AccessesOf(i)).Some? <==> AddressOf(r, AccessesOf(i)[0].a) == 0
  {
    hide AccessesOf, Bus.Read, Bus.Write, Open, PerformAll;
    var ts := AccessesOf(i);
    Shapes(i);
    var a := AddressOf(r, ts[0].a);
    OpenAnswers(m, 0, Extent(i), a, ts[0].n, r[ts[0].rd]);
    if Double(i.op) {
      PerformTwo(r, m, ts[0], ts[1]);
      AddFour(r[i.rn], i.imm);
      var o := NativeAccess.Perform(r, m, ts[0]);
      if o.Some? {
        OpenAnswers(o.value.1, 0, 8, Add32(a, 4), 4, r[i.rs]);
      }
    } else {
      PerformOne(r, m, ts[0]);
    }
  }

  /** R15 in the address. */
  lemma AddressMisses(i: Insn) returns (r: Regs)
    requires IsMemory(i.op) && PlainAccess(i) && !PlainAddress(AccessesOf(i)[0].a)
    ensures Misses(i, r, Sample(0, Extent(i)))
  {
    hide PerformAll, Executor.Execute, Misses, AccessesOf, Extent, PlainAddress, Open, Sample;
    Shapes(i);
    var m := Sample(0, Extent(i));
    SampleOpen(0, Extent(i));
    r := OpposedAddress(AccessesOf(i)[0].a, i.pc);
    AccessOutcome(r, m, i);
    OnlyAtZero(r, m, i);
    OnlyAtZero(r[REG_PC := i.pc], m, i);
    MemoryMisses(i, r, m);
  }

  /** Registers that address zero, with a stale PC. */
  function AtZero(a: Address, p: u32): Regs {
    match a
    case Based(rn, imm) => Zeros()[rn := Sub32(0, imm)][REG_PC := p]
    case _ => Zeros()[REG_PC := p]
  }

  lemma AtZeroIs(a: Address, p: u32, pc: u32)
    requires PlainAddress(a) && !a.Fixed?
    ensures AddressOf(AtZero(a, p), a) == 0 && AddressOf(AtZero(a, p)[REG_PC := pc], a) == 0
    ensures AtZero(a, p)[REG_PC] == p
  {
  }

  /** Stores leave what they stored. */
  lemma StoredBack(r: Regs, m: Bus.Memory, i: Insn, t: Access)
    requires IsMemory(i.op) && t in AccessesOf(i) && !t.load && PerformAll(r, m, AccessesOf(i)).Some?
    ensures Bus.Read(PerformAll(r, m, AccessesOf(i)).value.1, AddressOf(r, t.a), t.n) == Some(Bus.Low(r[t.rd], t.n))
  {
    hide AccessesOf, Bus.Read, Bus.Write, Bus.Low, PerformAll;
    var ts := AccessesOf(i);
    Shapes(i);
    var a := AddressOf(r, ts[0].a);
    if Double(i.op) {
      PerformTwo(r, m, ts[0], ts[1]);
      AddFour(r[i.rn], i.imm);
      var m1 := NativeAccess.Perform(r, m, ts[0]).value.1;
      Bus.WriteLaws(m, a, 4, r[i.rd], a, 4);
      Bus.WriteLaws(m1, Add32(a, 4), 4, r[i.rs], a, 4);
    } else {
      PerformOne(r, m, ts[0]);
      Bus.WriteLaws(m, a, t.n, r[t.rd], a, t.n);
    }
  }

  lemma LowDiffers(pc: u32, n: Bus.Width)
    ensures Bus.Low(pc, n) != Bus.Low(Add32(pc, 1), n)
  {
  }

  /** R15 stored. */
  lemma StoredPcMisses(i: Insn, t: Access) returns (r: Regs)
    requires IsMemory(i.op) && PlainAccess(i) && PlainAddress(AccessesOf(i)[0].a)
    requires t in AccessesOf(i) && !t.load && t.rd == REG_PC
    ensures Misses(i, r, Sample(0, Extent(i)))
  {
    hide PerformAll, Executor.Execute, Misses, AccessesOf, Extent, PlainAddress, Open, Sample, Bus.Low, Bus.Read,
         AtZero, AddressOf, PlainAccess;
    var m, a := Sample(0, Extent(i)), AccessesOf(i)[0].a;
    SampleOpen(0, Extent(i));
    Shapes(i);
    StoresNotFixed(i, t);
    r := AtZero(a, Add32(i.pc, 1));
    AtZeroIs(a, Add32(i.pc, 1), i.pc);
    var q := r[REG_PC := i.pc];
    AccessOutcome(r, m, i);
    OnlyAtZero(r, m, i);
    OnlyAtZero(q, m, i);
    StoredBack(r, m, i, t);
    StoredBack(q, m, i, t);
    LowDiffers(i.pc, t.n);
    SameWhere(r, q, i, t);
    MemoryMisses(i, r, m);
  }

  lemma StoresNotFixed(i: Insn, t: Access)
    requires IsMemory(i.op) && t in AccessesOf(i) && !t.load
    ensures !AccessesOf(i)[0].a.Fixed? && (i.op.T32LdrdImm? ==> false)
  {
  }

  lemma SameWhere(r: Regs, q: Regs, i: Insn, t: Access)
    requires IsMemory(i.op) && PlainAddress(AccessesOf(i)[0].a) && t in AccessesOf(i) && SameButPc(q, r)
    ensures AddressOf(q, t.a) == AddressOf(r, t.a)
  {
    hide AccessesOf;
    Shapes(i);
  }

  predicate IsScaled(op: Op) { op.T32LdrReg? || op.T32StrReg? }

  /** The interpreter's scaled access goes through exactly when its word does. */
  lemma ScaledOutcome(r: Regs, m: Bus.Memory, i: Insn)
    requires IsScaled(i.op) && Open(m, 0, 4)
    ensures var q := r[REG_PC := i.pc];
      Executor.Execute(Guest(q), m, i).ok <==> Add32(q[i.rn], ShiftLeft(q[i.rm], i.shiftN)) == 0
  {
    hide Executor.Execute, Executor.Perform, Bus.Read, Bus.Write, ShiftLeft, Open;
    var c, pc := Guest(r[REG_PC := i.pc]), Add32(i.pc, i.size);
    Executor.PerformsAccess(c, m, i, pc);
    OpenAnswers(m, 0, 4, Add32(c.r[i.rn], ShiftLeft(c.r[i.rm], i.shiftN)), 4, c.r[i.rd]);
    OutcomeOf(c, m, i, Executor.LoadStore(c, m, i, pc));
  }

  /** An address that is zero without its scale and not with it, or the other way round. */
  lemma OpposedScale(i: Insn) returns (r: Regs)
    requires IsScaled(i.op) && i.shiftN != 0
    ensures var q := r[REG_PC := i.pc];
      (Add32(q[i.rn], ShiftLeft(q[i.rm], i.shiftN)) == 0) != (Add32(r[i.rn], r[i.rm]) == 0)
  {
    hide ShiftLeft;
    if i.rn == REG_PC || i.rm == REG_PC {
      var q := Zeros()[REG_PC := i.pc];
      r := Zeros()[REG_PC := Unlike(Add32(q[i.rn], ShiftLeft(q[i.rm], i.shiftN)))];
      assert r[REG_PC := i.pc] == q;
    } else {
      TopLeft(i.shiftN);
      r := Zeros()[i.rn := TOP][i.rm := TOP];
    }
  }

  lemma ScaledMisses(i: Insn) returns (r: Regs)
    requires IsScaled(i.op) && i.shiftN != 0
    ensures Misses(i, r, Sample(0, 4))
  {
    hide PerformAll, Executor.Execute, Misses, Open, Sample, ShiftLeft, Add32;
    SampleOpen(0, 4);
    r := OpposedScale(i);
    ScaledOutcome(r, Sample(0, 4), i);
    OnlyAtZero(r, Sample(0, 4), i);
    MemoryMisses(i, r, Sample(0, 4));
  }

  /** The two literal addresses: one answers in a region of four bytes, the other does not. */
  lemma OpposedLiteral(pc: u32, imm: u32) returns (base: u32)
    requires 0 < imm < 0x1000
    ensures var a := Aligned(Add32(pc, 4)); var up, down := Add32(a, imm), Sub32(a, imm);
      base + 4 < 0x1_0000_0000 && base <= up && base <= down && (base == up) != (base == down)
  {
    var a := Aligned(Add32(pc, 4));
    base := Min(Add32(a, imm), Sub32(a, imm));
  }

  /** The interpreter reads the literal below, native code the one above. */
  lemma LiteralOutcome(r: Regs, m: Bus.Memory, i: Insn)
    requires i.op.T32LdrLit? && !i.add
    ensures Executor.Execute(Guest(r[REG_PC := i.pc]), m, i).ok <==>
      Bus.Read(m, Sub32(Aligned(Add32(i.pc, 4)), i.imm), 4).Some?
    ensures PerformAll(r, m, AccessesOf(i)).Some? <==>
      Bus.Read(m, Add32(Aligned(Add32(i.pc, 4)), i.imm), 4).Some?
  {
    hide PerformAll, Executor.Execute, Executor.Perform, Add32, Sub32, Aligned, Bus.Read;
    var c, pc := Guest(r[REG_PC := i.pc]), Add32(i.pc, i.size);
    Executor.PerformsAccess(c, m, i, pc);
    OutcomeOf(c, m, i, Executor.LoadStore(c, m, i, pc));
    PerformOne(r, m, AccessesOf(i)[0]);
  }

  /** A literal below the instruction. */
  lemma LiteralMisses(i: Insn) returns (base: u32)
    requires i.op.T32LdrLit? && !i.add && 0 < i.imm < 0x1000
    ensures base + 4 < 0x1_0000_0000 && Misses(i, Zeros(), Sample(base, 4))
  {
    hide PerformAll, AccessesOf, Executor.Execute, Misses, Open, Sample, Add32, Sub32, Aligned, Bus.Read;
    base := OpposedLiteral(i.pc, i.imm);
    var m, a := Sample(base, 4), Aligned(Add32(i.pc, 4));
    SampleOpen(base, 4);
    OpenAnswers(m, base, 4, Add32(a, i.imm), 4, 0);
    OpenAnswers(m, base, 4, Sub32(a, i.imm), 4, 0);
    LiteralOutcome(Zeros(), m, i);
    MemoryMisses(i, Zeros(), m);
  }

  /** Eight bytes at zero that begin with a given word. */
  function Led(v: u32): Bus.Memory {
    var m := Bus.Write(Sample(0, 8), 0, 4, v); if m.Some? then m.value else []
  }

  lemma LedOpen(v: u32)
    ensures Open(Led(v), 0, 8) && Bus.Read(Led(v), 0, 4) == Some(v)
  {
    hide Sample, Open, Bus.Read, Bus.Write;
    SampleOpen(0, 8);
    OpenAnswers(Sample(0, 8), 0, 8, 0, 4, v);
    Bus.WriteLaws(Sample(0, 8), 0, 4, v, 0, 4);
  }

  /** The interpreter reads both words before it writes a register. */
  lemma DoubleOutcome(r: Regs, m: Bus.Memory, i: Insn)
    requires i.op.T32LdrdImm? && NativeOk(i) && Open(m, 0, 8)
    ensures var q := r[REG_PC := i.pc]; Executor.Execute(Guest(q), m, i).ok <==> Add32(q[i.rn], i.imm) == 0
  {
    hide Executor.Execute, Executor.Perform, Bus.Read, Open;
    var c, pc := Guest(r[REG_PC := i.pc]), Add32(i.pc, i.size);
    var a := Add32(c.r[i.rn], i.imm);
    Executor.PerformsAccess(c, m, i, pc);
    OpenAnswers(m, 0, 8, a, 4, 0);
    OpenAnswers(m, 0, 8, Add32(a, 4), 4, 0);
    OutcomeOf(c, m, i, Executor.LoadStore(c, m, i, pc));
  }

  /** Native code adds the offset of the second word to the first word. */
  lemma DoubleReloads(r: Regs, v: u32, i: Insn)
    requires i.op.T32LdrdImm? && i.rd == i.rn
    ensures PerformAll(r, Led(v), AccessesOf(i)).Some? ==>
      Bus.Read(Led(v), Add32(r[i.rn], i.imm), 4).Some?
    ensures Add32(r[i.rn], i.imm) == 0 ==>
      (PerformAll(r, Led(v), AccessesOf(i)).Some? <==> Bus.Read(Led(v), Add32(v, Add32(i.imm, 4)), 4).Some?)
  {
    hide Led, Bus.Read, PerformAll, Add32;
    LedOpen(v);
    var ts := AccessesOf(i);
    PerformTwo(r, Led(v), ts[0], ts[1]);
  }

  /** A doubleword load into its own base. */
  lemma DoubleMisses(i: Insn) returns (r: Regs)
    requires i.op.T32LdrdImm? && NativeOk(i) && i.rd == i.rn
    ensures exists v: u32 :: Misses(i, r, Led(v))
  {
    hide PerformAll, Executor.Execute, Misses, Led, Open, Bus.Read, Add32, Sub32, NativeOk;
    OffsetSums(i.imm);
    var v: u32;
    if i.rn == REG_PC && Add32(i.pc, i.imm) != 0 {
      // the interpreter faults; native code finds its second word
      r, v := Zeros()[REG_PC := Sub32(0, i.imm)], Sub32(0, i.imm);
    } else {
      // the interpreter finds both words; native code faults on the second
      r, v := Zeros()[i.rn := Sub32(0, i.imm)], Sub32(8, i.imm);
    }
    LedOpen(v);
    DoubleOutcome(r, Led(v), i);
    DoubleReloads(r, v, i);
    OpenAnswers(Led(v), 0, 8, Add32(v, Add32(i.imm, 4)), 4, 0);
    MemoryMisses(i, r, Led(v));
  }

  lemma OffsetSums(imm: u32)
    ensures Add32(Sub32(0, imm), imm) == 0
    ensures Add32(Sub32(0, imm), Add32(imm, 4)) == 4 && Add32(Sub32(8, imm), Add32(imm, 4)) == 12
  {
  }

  lemma MemoryRefuted(i: Insn)
    requires Accepted(i) && Decoded(i) && IsMemory(i.op) && !MemoryForm(i)
    ensures !Simulated(i)
  {
    hide Misses, Simulated, IsMemory, AccessesOf, Sample, Led, Extent, PlainAddress, Supports;
    if PlainAccess(i) {
      var t :| t in AccessesOf(i) && !AvoidsPc(t);
      if PlainAddress(AccessesOf(i)[0].a) {
        OneBase(i, t);
        var r := StoredPcMisses(i, t);
        MissesRefute(i, r, Sample(0, Extent(i)));
      } else {
        var r := AddressMisses(i);
        MissesRefute(i, r, Sample(0, Extent(i)));
      }
    } else if IsScaled(i.op) {
      var r := ScaledMisses(i);
      MissesRefute(i, r, Sample(0, 4));
    } else if i.op.T32LdrLit? {
      var base := LiteralMisses(i);
      MissesRefute(i, Zeros(), Sample(base, 4));
    } else {
      var r := DoubleMisses(i);
      var v: u32 :| Misses(i, r, Led(v));
      MissesRefute(i, r, Led(v));
    }
  }

  /** The two words of a doubleword have one base. */
  lemma OneBase(i: Insn, t: Access)
    requires IsMemory(i.op) && t in AccessesOf(i) && PlainAddress(AccessesOf(i)[0].a)
    ensures PlainAddress(t.a)
  {
    hide AccessesOf, IsMemory;
    Shapes(i);
  }

  /* Multiple transfers. */

  predicate IsBlock(op: Op) { op.T32Ldm? || op.T32Stm? }

  /** The interpreter's loop gets through exactly when the transfer does. */
  lemma BlockOutcome(q: Regs, m: Bus.Memory, i: Insn)
    requires IsBlock(i.op) && NativeOk(i) && q[REG_PC] == i.pc
    ensures var t := LdmStmMulti(i);
      Executor.Execute(Guest(q), m, i).ok <==> TransferFrom(t, q, m, 0, Start(t, q)).Some?
  {
    hide Executor.Execute, Executor.Perform, Executor.LoadRegs, Executor.StoreRegs, TransferFrom, SameButPc, SameList,
         Executor.Transfer, Start, LdmStmMulti;
    var t, c, pc := LdmStmMulti(i), Guest(q), Add32(i.pc, i.size);
    Executor.PerformsTransfer(c, m, i, pc);
    OutcomeOf(c, m, i, Executor.Transfer(c, m, i, pc));
    BlockTransfer(c, m, i, pc);
    if i.op.T32Ldm? {
      SelfSame(q);
      LoadsAgree(t, q, m, q, 0, Start(t, q));
    } else {
      StoredAre(t, q, q[REG_PC := t.pcWord]);
      StoresAgree(t, q, m, q[REG_PC := t.pcWord], i.regs, 0, 16, Start(t, q));
    }
  }

  /** The interpreter's loop over the list, from the lowest address. */
  lemma BlockTransfer(c: CpuState, m: Bus.Memory, i: Insn, pc: u32)
    requires IsBlock(i.op) && NativeOk(i) && c.Pc() == i.pc
    ensures var t := LdmStmMulti(i); var e, a := Executor.Transfer(c, m, i, pc), Start(t, c.r);
      && t.regs == i.regs && t.load == i.op.T32Ldm? && (t.load ==> REG_PC !in t.regs)
      && (t.load ==> (e.Next? <==> Executor.LoadRegs(m, c.r, i.regs, 0, 16, a).1))
      && (!t.load ==> (e.Next? <==> Executor.StoreRegs(m, c.r[REG_PC := t.pcWord], i.regs, 0, 16, a).1))
      && (e.End? ==> !e.ok)
  {
    hide Executor.LoadRegs, Executor.StoreRegs, Count;
  }

  lemma SelfSame(q: Regs)
    ensures SameButPc(q, q)
  {
  }

  lemma StoredAre(t: Multi, q: Regs, r: Regs)
    requires r == q[REG_PC := t.pcWord]
    ensures forall k: Reg :: k in t.regs ==> r[k] == Stored(t, q, k)
    ensures SameList(t, t.regs, 16)
  {
  }

  lemma BlockMisses(i: Insn, r: Regs, m: Bus.Memory)
    requires IsBlock(i.op)
    requires Executor.Execute(Guest(r[REG_PC := i.pc]), m, i).ok != SlowTransferred(LdmStmMulti(i), r, m).Some?
    ensures Misses(i, r, m)
  {
    hide Executor.Execute, SlowTransferred, Tracks, IsBranch, IsData, IsMemory;
    MultiOp(i.op);
  }

  /** A transfer that lies inside the region goes through. */
  lemma {:induction false} Within(t: Multi, r: Regs, m: Bus.Memory, base: u32, size: u32, j: nat, a: u32)
    requires j <= 16 && Open(m, base, size) && base <= a && a + 4 * Remaining(t, j) <= base + size
    ensures TransferFrom(t, r, m, j, a).Some?
    decreases 16 - j
  {
    hide Open, Bus.Read, Bus.Write, Stored;
    if j == 16 {
    } else if j !in t.regs {
      Within(t, r, m, base, size, j + 1, a);
    } else {
      OpenAnswers(m, base, size, a, 4, Stored(t, r, j));
      var o := TransferOne(t, r, m, j, a);
      BoundHolds(m, base, size);
      Within(t, o.value.0, o.value.1, base, size, j + 1, Add32(a, 4));
    }
  }

  lemma BoundHolds(m: Bus.Memory, base: u32, size: u32)
    requires Open(m, base, size)
    ensures base + size < 0x1_0000_0000
  {
  }

  /** A transfer whose first word lies outside faults. */
  lemma {:induction false} Without(t: Multi, r: Regs, m: Bus.Memory, base: u32, size: u32, j: nat, a: u32, k: Reg)
    requires j <= k && k in t.regs && Open(m, base, size) && (a < base || a >= base + size)
    ensures TransferFrom(t, r, m, j, a).None?
    decreases 16 - j
  {
    hide Open, Bus.Read, Bus.Write, Stored;
    if j !in t.regs {
      Without(t, r, m, base, size, j + 1, a, k);
    } else {
      OpenAnswers(m, base, size, a, 4, Stored(t, r, j));
    }
  }

  lemma WordsBound(t: Multi)
    ensures Remaining(t, 0) <= 16 && t.Len() <= 64
  {
    RemainingCount(t, 0);
  }

  /** A stale base that starts the transfer at a. */
  function StartingAt(t: Multi, a: u32): Regs {
    Zeros()[t.base := if t.down then Add32(a, t.Len()) else a]
  }

  lemma StartsAt(t: Multi, a: u32)
    ensures Start(t, StartingAt(t, a)) == a
  {
    hide Count;
  }

  /** Sixteen words are in reach of a when it is small, and of zero otherwise. */
  function Near(a: u32): u32 { if a < 64 then a else 0 }

  /** The base is R15: one side finds its words in a region where the other finds none. */
  lemma BaseMisses(i: Insn, k: Reg) returns (r: Regs)
    requires IsBlock(i.op) && NativeOk(i) && i.rn == REG_PC && k in i.regs
    ensures exists base: u32 :: Misses(i, r, Sample(base, 64))
  {
    hide Executor.Execute, SlowTransferred, TransferFrom, Transferred, Start, StartingAt, Misses, Open, Sample, Count;
    var t := LdmStmMulti(i);
    var a := Start(t, Zeros()[REG_PC := i.pc]);
    var base := Near(a);
    var b: u32 := if a < 64 then a + 64 else 0;
    r := StartingAt(t, b);
    StartsAt(t, b);
    var q := r[REG_PC := i.pc];
    assert q == Zeros()[REG_PC := i.pc] by { PcOnly(t, b, i.pc); }
    var m := Sample(base, 64);
    SampleOpen(base, 64);
    BlockOutcome(q, m, i);
    SlowIsTransferred(t, r, m) by { assert t.load ==> t.base !in t.regs; }
    FirstDecides(t, r, m);
    WordsBound(t);
    if a < 64 {
      Within(t, q, m, base, 64, 0, a);
      Without(t, r, m, base, 64, 0, b, k);
    } else {
      Within(t, r, m, base, 64, 0, b);
      Without(t, q, m, base, 64, 0, a, k);
    }
    BlockMisses(i, r, m);
  }

  lemma PcOnly(t: Multi, a: u32, pc: u32)
    requires t.base == REG_PC
    ensures StartingAt(t, a)[REG_PC := pc] == Zeros()[REG_PC := pc]
  {
    hide Count;
  }

  lemma FirstDecides(t: Multi, r: Regs, m: Bus.Memory)
    ensures Transferred(t, r, m).Some? <==> TransferFrom(t, r, m, 0, Start(t, r)).Some?
  {
    hide TransferFrom, Start, WroteBack;
  }

  /** Every word loaded from the sample is the same. */
  lemma {:induction false} AllFilled(t: Multi, r: Regs, j: nat, a: u32, k: Reg)
    requires t.load && j <= 16 && a + 4 * Remaining(t, j) <= 64
    ensures TransferFrom(t, r, Sample(0, 64), j, a).Some?
    ensures TransferFrom(t, r, Sample(0, 64), j, a).value.0[k] == if k in t.regs && j <= k then FILL else r[k]
    decreases 16 - j
  {
    hide Sample, Bus.Read;
    if j == 16 {
    } else if j !in t.regs {
      AllFilled(t, r, j + 1, a, k);
    } else {
      SampleWord(0, 64, a);
      AllFilled(t, r[j := FILL], j + 1, a + 4, k);
    }
  }

  lemma FilledStart(t: Multi, r: Regs, off: u32)
    requires r[t.base] == FILL && off <= 64
    ensures Add32(Start(t, r), off) >= 64
  {
    WordsBound(t);
    hide Count;
  }

  /** Words after the base has become 0x80808080 are out of reach. */
  lemma {:induction false} OutOfReach(t: Multi, r: Regs, j: nat, off: u32, k: Reg)
    requires t.load && j <= k && k in t.regs && r[t.base] == FILL && off <= 64
    ensures Reloaded(t, r, Sample(0, 64), j, off).None?
    decreases 16 - j
  {
    hide Sample, Bus.Read, Start, Open;
    if j !in t.regs {
      OutOfReach(t, r, j + 1, off, k);
    } else {
      SampleOpen(0, 64);
      FilledStart(t, r, off);
      OpenAnswers(Sample(0, 64), 0, 64, Add32(Start(t, r), off), 4, 0);
    }
  }

  /** A base overwritten before the last word sends native code astray. */
  lemma {:induction false} Overtaken(t: Multi, r: Regs, j: nat, off: u32, k: Reg)
    requires t.load && j <= t.base < k && t.base in t.regs && k in t.regs && Start(t, r) == 0
    requires off + 4 * Remaining(t, j) <= 64
    ensures Reloaded(t, r, Sample(0, 64), j, off).None?
    decreases 16 - j
  {
    hide Sample, Bus.Read, Start;
    if j !in t.regs {
      Overtaken(t, r, j + 1, off, k);
    } else {
      SampleWord(0, 64, off);
      if j == t.base {
        OutOfReach(t, r[j := FILL], j + 1, off + 4, k);
      } else {
        SameStart(t, r, r[j := FILL]);
        Overtaken(t, r[j := FILL], j + 1, off + 4, k);
      }
    }
  }

  /** The base written back: the old one moved by the length, or the loaded word. */
  lemma WrittenBase(i: Insn, q: Regs, m: Bus.Memory)
    requires i.op.T32Ldm? && NativeOk(i) && i.rn != REG_PC && i.writeback && q[REG_PC] == i.pc
    ensures var o, t := Executor.Execute(Guest(q), m, i), LdmStmMulti(i); o.ok ==> o.c.r[i.rn] == NewBase(t, q)
  {
    hide Executor.Execute, Executor.Perform, Executor.LoadRegs, Count, Add32, Sub32;
    var c, pc := Guest(q), Add32(i.pc, i.size);
    Executor.PerformsTransfer(c, m, i, pc);
    var e := Executor.Transfer(c, m, i, pc);
    OutcomeOf(c, m, i, e);
    if e.Next? {
      var l := Executor.LoadRegs(m, c.r, i.regs, 0, 16, Executor.MultipleStart(c, i)).0;
      var c' := c.(r := l[REG_PC := c.Pc()]);
      assert e.c == Executor.SetReg(c', i.rn, Executor.MultipleEnd(c, i));
      assert Executor.MultipleEnd(c, i) == NewBase(LdmStmMulti(i), q);
    }
  }

  /** Another base than native code's is a miss. */
  lemma WrittenMisses(i: Insn, r: Regs, m: Bus.Memory)
    requires i.op.T32Ldm? && i.rn != REG_PC
    requires var o, e := Executor.Execute(Guest(r[REG_PC := i.pc]), m, i), SlowTransferred(LdmStmMulti(i), r, m);
      o.ok && e.Some? ==> o.c.r[i.rn] != e.value.0[i.rn]
    requires Executor.Execute(Guest(r[REG_PC := i.pc]), m, i).ok
    ensures Misses(i, r, m)
  {
    hide Executor.Execute, SlowTransferred, IsBranch, IsData, IsMemory;
    MultiOp(i.op);
  }

  lemma FilledBase(t: Multi, r: Regs, q: Regs)
    requires r[t.base] == FILL && Start(t, q) == 0
    ensures NewBase(t, r) != NewBase(t, q)
  {
    WordsBound(t);
    hide Count;
  }

  /** The base is loaded, and then written back or followed by another word. */
  lemma OwnBaseMisses(i: Insn) returns (r: Regs)
    requires i.op.T32Ldm? && NativeOk(i) && !MultiForm(i) && i.rn != REG_PC
    ensures Misses(i, r, Sample(0, 64))
  {
    hide Executor.Execute, SlowTransferred, TransferFrom, Reloaded, Start, StartingAt, NewBase, Misses, Sample, Count,
         Open;
    var t, m := LdmStmMulti(i), Sample(0, 64);
    SampleOpen(0, 64);
    r := StartingAt(t, 0);
    StartsAt(t, 0);
    var q := r[REG_PC := i.pc];
    SameStart(t, r, q);
    WordsBound(t);
    BlockOutcome(q, m, i);
    Within(t, q, m, 0, 64, 0, 0);
    if k: Reg :| k in t.regs && k > t.base {
      Overtaken(t, r, 0, 0, k);
      SlowFaults(t, r, m);
      BlockMisses(i, r, m);
    } else {
      WrittenBase(i, q, m);
      SlowIsTransferred(t, r, m);
      AllFilled(t, r, 0, 0, t.base);
      LoadedBase(t, r, m, q);
      WrittenMisses(i, r, m);
    }
  }

  lemma SlowFaults(t: Multi, r: Regs, m: Bus.Memory)
    requires Reloaded(t, r, m, 0, 0).None?
    ensures SlowTransferred(t, r, m).None?
  {
  }

  /** Native code writes back the loaded base, moved. */
  lemma LoadedBase(t: Multi, r: Regs, m: Bus.Memory, q: Regs)
    requires t.wb && Start(t, r) == 0 && Start(t, q) == 0
    requires var o := TransferFrom(t, r, m, 0, 0); o.Some? && o.value.0[t.base] == FILL
    ensures Transferred(t, r, m).Some? && Transferred(t, r, m).value.0[t.base] != NewBase(t, q)
  {
    hide TransferFrom, Start, NewBase;
    FilledBase(t, TransferFrom(t, r, m, 0, 0).value.0, q);
  }

  lemma MultiRefuted(i: Insn)
    requires Accepted(i) && Decoded(i) && IsMulti(i.op) && !MultiForm(i)
    ensures !Simulated(i)
  {
    hide Misses, Simulated, Supports, Sample, IsMulti, NativeOk;
    AreBlocks(i);
    if i.rn == REG_PC {
      var k: Reg :| k in i.regs;
      var r := BaseMisses(i, k);
      var base: u32 :| Misses(i, r, Sample(base, 64));
      MissesRefute(i, r, Sample(base, 64));
    } else {
      var r := OwnBaseMisses(i);
      MissesRefute(i, r, Sample(0, 64));
    }
  }

  lemma AreBlocks(i: Insn)
    requires Decoded(i) && IsMulti(i.op) && !MultiForm(i)
    ensures IsBlock(i.op) && i.regs != {} && (i.rn != REG_PC ==> i.op.T32Ldm?)
  {
  }

  /* Branches. */

  /** Condition 14 is always taken by native code and never by the interpreter. */
  lemma AlwaysMisses(i: Insn, m: Bus.Memory)
    requires i.op.T32BCond? && i.cond == 14 && Add32(4, i.imm) != i.size
    ensures Misses(i, Zeros(), m)
  {
    hide Executor.Execute, Executor.Perform, Executor.CondPass, Tracks, IsData, IsMemory, IsMulti, IsBranch;
    ConditionalIs(i.op);
    BranchOp(i.op);
    var c, pc := Guest(Zeros()[REG_PC := i.pc]), Add32(i.pc, i.size);
    NeverPerforms(c, m, i, pc);
    OutcomeOf(c, m, i, Executor.Next(c, m, pc));
    TwoTargets(i);
  }

  lemma NeverPerforms(c: CpuState, m: Bus.Memory, i: Insn, pc: u32)
    requires i.op.T32BCond? && i.cond == 14
    ensures Executor.Perform(c, m, i, pc) == Executor.Next(c, m, pc)
  {
    hide Executor.DataProcessing, Executor.Transfer, Executor.LoadStore, ExcEnter, ExcReturn, RaiseUndefined,
         Executor.Msr, Executor.Mrs, Executor.CondPass;
  }

  lemma ConditionalIs(op: Op)
    requires op.T32BCond?
    ensures IsBranch(op)
  {
  }

  lemma TwoTargets(i: Insn)
    requires Add32(4, i.imm) != i.size
    ensures Add32(Add32(i.pc, 4), i.imm) != Add32(i.pc, i.size)
  {
  }

  lemma BranchRefuted(i: Insn)
    requires Accepted(i) && Decoded(i) && IsBranch(i.op) && !BranchForm(i)
    ensures !Simulated(i)
  {
    hide Misses, Simulated, Accepted;
    AlwaysMisses(i, []);
    MissesRefute(i, Zeros(), []);
  }

  /* Every form. */

  /** Of the instructions the decoder produces and the generator accepts, the emitted code
      simulates the interpreter from every state exactly for those of native form. */
  lemma FormIsExact(i: Insn)
    requires Accepted(i) && Decoded(i)
    ensures NativeForm(i) <==> Simulated(i)
  {
    hide Simulated, Accepted, Decoded, DataForm, MemoryForm, MultiForm, BranchForm, IsData, IsMemory, IsMulti, IsBranch;
    if NativeForm(i) {
      FormsSimulate(i);
    } else if IsData(i.op) && !DataForm(i) {
      DataRefuted(i);
    } else if IsMemory(i.op) && !MemoryForm(i) {
      MemoryRefuted(i);
    } else if IsMulti(i.op) && !MultiForm(i) {
      MultiRefuted(i);
    } else {
      BranchRefuted(i);
    }
  }
}

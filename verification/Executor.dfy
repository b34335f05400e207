/** The interpreter: what one decoded instruction does to processor and memory. */
module Executor {
  import opened Words
  import opened Cpu
  import opened Insn
  import opened Nvic
  import Bus

  /** Condition codes over the APSR. */
  predicate CondPass(apsr: u32, cond: nat) {
    var n, z, c, v := Test(apsr, APSR_N), Test(apsr, APSR_Z), Test(apsr, APSR_C), Test(apsr, APSR_V);
    match cond
    case 0x0 => z
    case 0x1 => !z
    case 0x2 => c
    case 0x3 => !c
    case 0x4 => n
    case 0x5 => !n
    case 0x6 => v
    case 0x7 => !v
    case 0x8 => c && !z
    case 0x9 => !c || z
    case 0xA => n == v
    case 0xB => n != v
    case 0xC => !z && n == v
    case 0xD => z || n != v
    case _ => true
  }

  /** Register operand shifted as the Thumb-2 encodings ask: LSL, LSR, ASR, ROR. */
  function T32Shift(v: u32, kind: nat, n: nat): u32 {
    if n == 0 && kind == 0 then v
    else match kind % 4
      case 0 => if n >= 32 then 0 else ShiftLeft(v, n)
      case 1 => if n >= 32 then 0 else ShiftRight(v, n)
      case 2 => var k := if n >= 32 then 31 else n;
                if v >= 0x8000_0000 then Not32(ShiftRight(Not32(v), k)) else ShiftRight(v, k)
      case _ => if n == 0 || n > 32 then v else Or32(ShiftRight(v, n), ShiftLeft(v, 32 - n))
  }

  /** Comparisons write the flags even inside an IT block. */
  predicate IsFlagSetter(op: Op) {
    op.CmpImm? || op.CmpReg? || op.CmpRegT2? || op.CmnReg? || op.TstReg? ||
    op.T32CmpImm? || op.T32CmpReg? || op.T32CmnImm? || op.T32CmnReg?
  }

  /* Multiple transfers: ascending registers at ascending addresses. */

  /** Store the listed registers among k..hi-1. */
  function StoreRegs(m: Bus.Memory, r: Regs, regs: set<Reg>, k: nat, hi: nat, a: u32): (Bus.Memory, bool)
    requires k <= hi <= 16
    decreases |m|, hi - k
  {
    if k == hi then (m, true)
    else if k !in regs then StoreRegs(m, r, regs, k + 1, hi, a)
    else match Bus.Write(m, a, 4, r[k])
      case None => (m, false)
      case Some(m') => StoreRegs(m', r, regs, k + 1, hi, Add32(a, 4))
  }

  /** Load the listed registers among k..hi-1; on a fault, those before it have changed. */
  function LoadRegs(m: Bus.Memory, r: Regs, regs: set<Reg>, k: nat, hi: nat, a: u32): (Regs, bool)
    requires k <= hi <= 16
    decreases |m|, hi - k
  {
    if k == hi then (r, true)
    else if k !in regs then LoadRegs(m, r, regs, k + 1, hi, a)
    else match Bus.Read(m, a, 4)
      case None => (r, false)
      case Some(v) => LoadRegs(m, r[k := v], regs, k + 1, hi, Add32(a, 4))
  }

  /** Either the instruction falls through to the common epilogue with a next PC,
      or it ends the step itself (a fault, an exception, a breakpoint). */
  datatype Effect = Next(c: CpuState, m: Bus.Memory, pc: u32) | End(c: CpuState, m: Bus.Memory, ok: bool)

  function Fault(c: CpuState, m: Bus.Memory): Effect {
    End(c.(halted := true), m, false)
  }

  function FromOutcome(o: Outcome): Effect {
    if o.ok then End(o.c, o.m, true) else Fault(o.c, o.m)
  }

  function SetReg(c: CpuState, rd: Reg, v: u32): CpuState {
    c.(r := c.r[rd := v])
  }

  function LoadTo(c: CpuState, m: Bus.Memory, a: u32, n: Bus.Width, rd: Reg, pc: u32): Effect {
    match Bus.Read(m, a, n)
    case None => Fault(c, m)
    case Some(v) => Next(SetReg(c, rd, v), m, pc)
  }

  function StoreFrom(c: CpuState, m: Bus.Memory, a: u32, n: Bus.Width, v: u32, pc: u32): Effect {
    match Bus.Write(m, a, n, v)
    case None => Fault(c, m)
    case Some(m') => Next(c, m', pc)
  }

  /** Hi-register forms read the PC as the instruction address plus four. */
  function HiReg(c: CpuState, n: Reg): u32 {
    if n == REG_PC then Add32(c.Pc(), 4) else c.r[n]
  }

  function Literal(c: CpuState): u32 {
    Aligned(Add32(c.Pc(), 4))
  }

  function BranchTarget(c: CpuState, imm: u32): u32 {
    Add32(Add32(c.Pc(), 4), imm)
  }

  predicate IsExcReturn(v: u32, c: CpuState) {
    v >= 0xFFFF_FFF0 && c.mode.Handler?
  }

  /** Base address plus or minus the immediate, of the indexed Thumb-2 forms. */
  function Indexed(c: CpuState, i: Insn): u32 {
    if i.add then Add32(c.r[i.rn], i.imm) else Sub32(c.r[i.rn], i.imm)
  }

  function EffectiveAddress(c: CpuState, i: Insn): u32 {
    if i.index then Indexed(c, i) else c.r[i.rn]
  }

  function WriteBack(c: CpuState, i: Insn, v: u32): CpuState {
    if i.writeback then SetReg(c, i.rn, v) else c
  }

  function Wb(e: Effect, i: Insn, v: u32): Effect {
    if e.Next? then Next(WriteBack(e.c, i, v), e.m, e.pc) else e
  }

  function DataProcessing(c: CpuState, i: Insn): CpuState {
    var rn, rm, imm := c.r[i.rn], c.r[i.rm], i.imm;
    match i.op
    case MovImm => SetReg(c, i.rd, imm).(apsr := FlagsNz(c.apsr, imm))
    case AddReg => var v := Add32(rn, rm); SetReg(c, i.rd, v).(apsr := FlagsAdd(c.apsr, rn, rm, v, false))
    case SubReg => var v := Sub32(rn, rm); SetReg(c, i.rd, v).(apsr := FlagsSub(c.apsr, rn, rm, v))
    case AddImm3 => var v := Add32(rn, imm); SetReg(c, i.rd, v).(apsr := FlagsAdd(c.apsr, rn, imm, v, false))
    case AddImm8 => var v := Add32(rn, imm); SetReg(c, i.rd, v).(apsr := FlagsAdd(c.apsr, rn, imm, v, false))
    case SubImm3 => var v := Sub32(rn, imm); SetReg(c, i.rd, v).(apsr := FlagsSub(c.apsr, rn, imm, v))
    case SubImm8 => var v := Sub32(rn, imm); SetReg(c, i.rd, v).(apsr := FlagsSub(c.apsr, rn, imm, v))
    case AndReg => var v := And32(rn, rm); SetReg(c, i.rd, v).(apsr := FlagsNz(c.apsr, v))
    case OrrReg => var v := Or32(rn, rm); SetReg(c, i.rd, v).(apsr := FlagsNz(c.apsr, v))
    case EorReg => var v := Xor32(rn, rm); SetReg(c, i.rd, v).(apsr := FlagsNz(c.apsr, v))
    case AdcReg => var ci := Test(c.apsr, APSR_C); var v := Sum(rn, rm, ci);
                   SetReg(c, i.rd, v).(apsr := FlagsAdd(c.apsr, rn, rm, v, ci))
    case SbcReg => var ci := Test(c.apsr, APSR_C); var v := Sum(rn, Not32(rm), ci);
                   SetReg(c, i.rd, v).(apsr := FlagsAdd(c.apsr, rn, Not32(rm), v, ci))
    case RsbImm => var v := Sub32(0, rn); SetReg(c, i.rd, v).(apsr := FlagsSub(c.apsr, 0, rn, v))
    case CmpImm => c.(apsr := FlagsSub(c.apsr, rn, imm, Sub32(rn, imm)))
    case CmpReg => c.(apsr := FlagsSub(c.apsr, rn, rm, Sub32(rn, rm)))
    case CmpRegT2 => var a, b := HiReg(c, i.rn), HiReg(c, i.rm); c.(apsr := FlagsSub(c.apsr, a, b, Sub32(a, b)))
    case CmnReg => c.(apsr := FlagsAdd(c.apsr, rn, rm, Add32(rn, rm), false))
    case TstReg => c.(apsr := FlagsNz(c.apsr, And32(rn, rm)))
    case T32MovImm => IfFlags(c, i, imm, FlagsNz(c.apsr, imm))
    case T32Movw => SetReg(c, i.rd, imm)
    case T32AddImm => var v := Add32(rn, imm); IfFlags(c, i, v, FlagsAdd(c.apsr, rn, imm, v, false))
    case T32SubImm => var v := Sub32(rn, imm); IfFlags(c, i, v, FlagsSub(c.apsr, rn, imm, v))
    case T32AndImm => var v := And32(rn, imm); IfFlags(c, i, v, FlagsNz(c.apsr, v))
    case T32OrrImm => var v := Or32(rn, imm); IfFlags(c, i, v, FlagsNz(c.apsr, v))
    case T32EorImm => var v := Xor32(rn, imm); IfFlags(c, i, v, FlagsNz(c.apsr, v))
    case T32Addw => SetReg(c, i.rd, Add32(rn, imm))
    case T32Subw => SetReg(c, i.rd, Sub32(rn, imm))
    case T32CmpImm => c.(apsr := FlagsSub(c.apsr, rn, imm, Sub32(rn, imm)))
    case T32CmnImm => c.(apsr := FlagsAdd(c.apsr, rn, imm, Add32(rn, imm), false))
    case T32CmpReg => var b := T32Shift(rm, i.shiftType, i.shiftN); c.(apsr := FlagsSub(c.apsr, rn, b, Sub32(rn, b)))
    case T32CmnReg => var b := T32Shift(rm, i.shiftType, i.shiftN);
                      c.(apsr := FlagsAdd(c.apsr, rn, b, Add32(rn, b), false))
    case _ => c
  }

  /** Write the result, and the flags only when the S bit asks for them. */
  function IfFlags(c: CpuState, i: Insn, v: u32, apsr: u32): CpuState {
    SetReg(c, i.rd, v).(apsr := if i.setFlags then apsr else c.apsr)
  }

  function LoadStore(c: CpuState, m: Bus.Memory, i: Insn, pc: u32): Effect {
    var rn, rm := c.r[i.rn], c.r[i.rm];
    match i.op
    case LdrImm => LoadTo(c, m, Add32(rn, i.imm), 4, i.rd, pc)
    case LdrbImm => LoadTo(c, m, Add32(rn, i.imm), 1, i.rd, pc)
    case LdrhImm => LoadTo(c, m, Add32(rn, i.imm), 2, i.rd, pc)
    case StrImm => StoreFrom(c, m, Add32(rn, i.imm), 4, c.r[i.rd], pc)
    case StrbImm => StoreFrom(c, m, Add32(rn, i.imm), 1, c.r[i.rd] % 0x100, pc)
    case StrhImm => StoreFrom(c, m, Add32(rn, i.imm), 2, c.r[i.rd] % 0x1_0000, pc)
    case LdrSp => LoadTo(c, m, Add32(c.r[REG_SP], i.imm), 4, i.rd, pc)
    case StrSp => StoreFrom(c, m, Add32(c.r[REG_SP], i.imm), 4, c.r[i.rd], pc)
    case LdrLit => LoadTo(c, m, Add32(Literal(c), i.imm), 4, i.rd, pc)
    case LdrReg => LoadTo(c, m, Add32(rn, rm), 4, i.rd, pc)
    case StrReg => StoreFrom(c, m, Add32(rn, rm), 4, c.r[i.rd], pc)
    case T32LdrImm => Wb(LoadTo(c, m, EffectiveAddress(c, i), 4, i.rd, pc), i, Indexed(c, i))
    case T32LdrbImm => Wb(LoadTo(c, m, EffectiveAddress(c, i), 1, i.rd, pc), i, Indexed(c, i))
    case T32LdrhImm => Wb(LoadTo(c, m, EffectiveAddress(c, i), 2, i.rd, pc), i, Indexed(c, i))
    case T32StrImm => Wb(StoreFrom(c, m, EffectiveAddress(c, i), 4, c.r[i.rd], pc), i, Indexed(c, i))
    case T32StrbImm => Wb(StoreFrom(c, m, EffectiveAddress(c, i), 1, c.r[i.rd], pc), i, Indexed(c, i))
    case T32StrhImm => Wb(StoreFrom(c, m, EffectiveAddress(c, i), 2, c.r[i.rd], pc), i, Indexed(c, i))
    case T32LdrLit =>
      LoadTo(c, m, if i.add then Add32(Literal(c), i.imm) else Sub32(Literal(c), i.imm), 4, i.rd, pc)
    case T32LdrReg => LoadTo(c, m, Add32(rn, ShiftLeft(rm, i.shiftN)), 4, i.rd, pc)
    case T32StrReg => StoreFrom(c, m, Add32(rn, ShiftLeft(rm, i.shiftN)), 4, c.r[i.rd], pc)
    case T32LdrdImm =>
      var ea := EffectiveAddress(c, i);
      (match Bus.Read(m, ea, 4)
       case None => Fault(c, m)
       case Some(v0) =>
         match Bus.Read(m, Add32(ea, 4), 4)
         case None => Fault(c, m)
         case Some(v1) => Wb(Next(SetReg(SetReg(c, i.rd, v0), i.rs, v1), m, pc), i, Indexed(c, i)))
    case T32StrdImm =>
      var ea := EffectiveAddress(c, i);
      (match Bus.Write(m, ea, 4, c.r[i.rd])
       case None => Fault(c, m)
       case Some(m') => Wb(StoreFrom(c, m', Add32(ea, 4), 4, c.r[i.rs], pc), i, Indexed(c, i)))
    case _ => Next(c, m, pc)
  }

  function Transfer(c: CpuState, m: Bus.Memory, i: Insn, pc: u32): Effect {
    match i.op
    case Push =>
      var sp := Sub32(c.r[REG_SP], 4 * Count(i.regs, 15));
      var c := SetReg(c, REG_SP, sp);
      var (m, ok) := StoreRegs(m, c.r, i.regs, 0, 15, sp);
      if ok then Next(c, m, pc) else Fault(c, m)
    case Pop =>
      var sp := c.r[REG_SP];
      var (r, ok) := LoadRegs(m, c.r, i.regs, 0, 16, sp);
      var target, c' := r[REG_PC], c.(r := r[REG_PC := c.Pc()]);
      if !ok then Fault(c', m) else
      var c' := SetReg(c', REG_SP, Add32(sp, 4 * Count(i.regs, 16)));
      if REG_PC !in i.regs then Next(c', m, pc)
      else if IsExcReturn(target, c) then FromOutcome(ExcReturn(c', m, target))
      else Next(c', m, Even(target))
    case Stm =>
      var a := c.r[i.rn];
      var (m, ok) := StoreRegs(m, c.r, i.regs, 0, 8, a);
      if ok then Next(SetReg(c, i.rn, Add32(a, 4 * Count(i.regs, 8))), m, pc) else Fault(c, m)
    case Ldm =>
      var a := c.r[i.rn];
      var (r, ok) := LoadRegs(m, c.r, i.regs, 0, 8, a);
      var c' := c.(r := r);
      if !ok then Fault(c', m)
      else if i.rn in i.regs then Next(c', m, pc)
      else Next(SetReg(c', i.rn, Add32(a, 4 * Count(i.regs, 8))), m, pc)
    case T32Ldm =>
      var a := MultipleStart(c, i);
      var (r, ok) := LoadRegs(m, c.r, i.regs, 0, 16, a);
      var target, c' := r[REG_PC], c.(r := r[REG_PC := c.Pc()]);
      if !ok then Fault(c', m)
      else Wb(Next(c', m, if REG_PC in i.regs then Even(target) else pc), i, MultipleEnd(c, i))
    case T32Stm =>
      var (m, ok) := StoreRegs(m, c.r[REG_PC := Add32(c.Pc(), 4)], i.regs, 0, 16, MultipleStart(c, i));
      if ok then Wb(Next(c, m, pc), i, MultipleEnd(c, i)) else Fault(c, m)
    case _ => Next(c, m, pc)
  }

  /** Lowest address of an increment-after or decrement-before transfer, and the written-back base. */
  function MultipleStart(c: CpuState, i: Insn): u32 {
    if i.add then c.r[i.rn] else Sub32(c.r[i.rn], 4 * Count(i.regs, 16))
  }
  function MultipleEnd(c: CpuState, i: Insn): u32 {
    if i.add then Add32(c.r[i.rn], 4 * Count(i.regs, 16)) else MultipleStart(c, i)
  }

  function Mrs(c: CpuState, sysm: u32): u32 {
    match sysm
    case 0 => Or32(Or32(c.apsr, c.ipsr), c.epsr)
    case 1 => c.ipsr
    case 2 => c.epsr
    case 3 => Or32(Or32(c.apsr, c.ipsr), c.epsr)
    case 5 => c.ipsr
    case 8 => c.msp
    case 9 => c.psp
    case 16 => c.primask
    case 17 => c.basepri
    case 19 => c.faultmask
    case 20 => c.control
    case _ => 0
  }

  function Msr(c: CpuState, sysm: u32, mask: nat, v: u32): CpuState {
    if sysm <= 3 then
      if mask / 2 % 2 == 1 then c.(apsr := Or32(And32(c.apsr, 0x07FF_FFFF), And32(v, 0xF800_0000))) else c
    else match sysm
      case 8 =>
        var c := c.(msp := Aligned(v));
        if c.mode.Thread? && !c.SpSel() then SetReg(c, REG_SP, c.msp) else c
      case 9 =>
        var c := c.(psp := Aligned(v));
        if c.mode.Thread? && c.SpSel() then SetReg(c, REG_SP, c.psp) else c
      case 16 => c.(primask := v % 2)
      case 17 => c.(basepri := v % 0x100)
      case 19 => c.(faultmask := v % 2)
      case 20 =>
        var c' := c.(control := v % 4);
        if c.mode.Thread? && c.SpSel() != c'.SpSel() then
          if c'.SpSel() then c'.(msp := c.r[REG_SP], r := c.r[REG_SP := c.psp])
          else c'.(psp := c.r[REG_SP], r := c.r[REG_SP := c.msp])
        else c'
      case _ => c
  }

  function ChangeMasks(c: CpuState, imm: u32): CpuState {
    var v: u32 := imm / 4 % 2;
    var c := if imm / 2 % 2 == 1 then c.(primask := v) else c;
    if imm % 2 == 1 then c.(faultmask := v) else c
  }

  /** The instruction proper, with the address of its successor. */
  function Perform(c: CpuState, m: Bus.Memory, i: Insn, pc: u32): Effect {
    match i.op
    case Nop => Next(c, m, pc)
    case T32Nop => Next(c, m, pc)
    case MovReg =>
      var v := HiReg(c, i.rm);
      if i.rd == REG_PC then Next(c, m, Even(v)) else Next(SetReg(c, i.rd, v), m, pc)
    case AddRegT2 =>
      var v := Add32(HiReg(c, i.rn), HiReg(c, i.rm));
      if i.rd == REG_PC then Next(c, m, Even(v)) else Next(SetReg(c, i.rd, v), m, pc)
    case BCond => Next(c, m, if CondPass(c.apsr, i.cond) then BranchTarget(c, i.imm) else pc)
    case T32BCond =>
      Next(c, m, if i.cond <= 0xD && CondPass(c.apsr, i.cond) then BranchTarget(c, i.imm) else pc)
    case BUncond => Next(c, m, BranchTarget(c, i.imm))
    case T32Bl =>
      Next(SetReg(c, REG_LR, SetThumb(Add32(c.Pc(), 4))), m, Even(BranchTarget(c, i.imm)))
    case Cbz => Next(c, m, if c.r[i.rn] == 0 then BranchTarget(c, i.imm) else pc)
    case Cbnz => Next(c, m, if c.r[i.rn] != 0 then BranchTarget(c, i.imm) else pc)
    case Bx =>
      var t := c.r[i.rm];
      if IsExcReturn(t, c) then FromOutcome(ExcReturn(c, m, t)) else Next(c, m, Even(t))
    case BlxReg =>
      var t := c.r[i.rm];
      Next(SetReg(c, REG_LR, SetThumb(Add32(c.Pc(), 2))), m, Even(t))
    case Udf => Fault(c, m)
    case Bkpt => End(c.(halted := true), m, true)
    case Svc => FromOutcome(ExcEnter(SetReg(c, REG_PC, pc), m, EXC_SVC))
    case Undefined => var o := RaiseUndefined(c, m); End(o.c, o.m, true)
    case It => Next(c.(itstate := (i.itFirst * 16 + i.itMask) % 0x100), m, pc)
    case Cps => Next(ChangeMasks(c, i.imm), m, pc)
    case T32Mrs => Next(SetReg(c, i.rd, Mrs(c, i.imm)), m, pc)
    case T32Msr => Next(Msr(c, i.imm, i.rs, c.r[i.rn]), m, pc)
    case _ =>
      if IsTransfer(i.op) then Transfer(c, m, i, pc)
      else if IsLoadStore(i.op) then LoadStore(c, m, i, pc)
      else Next(DataProcessing(c, i), m, pc)
  }

  /** Loads and stores of several registers. */
  predicate IsTransfer(op: Op) {
    op.Push? || op.Pop? || op.Ldm? || op.Stm? || op.T32Ldm? || op.T32Stm?
  }

  predicate IsLoadStore(op: Op) {
    op.LdrImm? || op.StrImm? || op.LdrbImm? || op.StrbImm? || op.LdrhImm? || op.StrhImm? ||
    op.LdrSp? || op.StrSp? || op.LdrLit? || op.LdrReg? || op.StrReg? ||
    op.T32LdrImm? || op.T32StrImm? || op.T32LdrbImm? || op.T32StrbImm? || op.T32LdrhImm? || op.T32StrhImm? ||
    op.T32LdrLit? || op.T32LdrReg? || op.T32StrReg? || op.T32LdrdImm? || op.T32StrdImm?
  }

  /** One instruction, including IT blocks: a failed condition only advances, a passed one
      keeps the old flags unless it compares. */
  function Execute(c: CpuState, m: Bus.Memory, i: Insn): Outcome {
    var pc := Add32(c.Pc(), i.size);
    var inIt := c.InIt();
    if inIt && !CondPass(c.apsr, c.ItCond()) then
      Outcome(SetReg(c, REG_PC, pc).(itstate := ItAdvance(c.itstate), cycles := c.cycles + 1), m, true)
    else
      match Perform(c, m, i, pc)
      case End(c', m', ok) => Outcome(c', m', ok)
      case Next(c', m', pc') =>
        var c1 := if inIt && !IsFlagSetter(i.op) then c'.(apsr := c.apsr) else c';
        var c2 := if inIt && !i.op.It? then c1.(itstate := ItAdvance(c1.itstate)) else c1;
        Outcome(SetReg(c2, REG_PC, pc').(cycles := c2.cycles + 1), m', true)
  }

  /* The step, one group of instructions at a time. */

  lemma PlainStep(c: CpuState, m: Bus.Memory, i: Insn)
    requires c.itstate == 0
    ensures match Perform(c, m, i, Add32(c.Pc(), i.size))
      case End(c', m', ok) => Execute(c, m, i) == Outcome(c', m', ok)
      case Next(c', m', pc') => Execute(c, m, i) == Outcome(SetReg(c', REG_PC, pc').(cycles := c'.cycles + 1), m', true)
  {
    hide Perform, CondPass;
  }

  lemma PerformsAccess(c: CpuState, m: Bus.Memory, i: Insn, pc: u32)
    requires IsLoadStore(i.op)
    ensures Perform(c, m, i, pc) == LoadStore(c, m, i, pc)
  {
    hide LoadStore, Transfer, DataProcessing, Msr, Mrs, ExcEnter, ExcReturn, RaiseUndefined, CondPass;
  }

  lemma PerformsTransfer(c: CpuState, m: Bus.Memory, i: Insn, pc: u32)
    requires IsTransfer(i.op)
    ensures Perform(c, m, i, pc) == Transfer(c, m, i, pc)
  {
    hide LoadStore, Transfer, DataProcessing, Msr, Mrs, ExcEnter, ExcReturn, RaiseUndefined, CondPass;
  }
}

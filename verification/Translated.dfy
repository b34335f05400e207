/** The block cache over the interpreter itself: its laws hold, so blocks are transparent. */
module Translated {
  import opened Words
  import opened Cpu
  import opened Insn
  import opened Nvic
  import opened Executor
  import opened RunLoop
  import opened Machine
  import opened Jit
  import opened Replay
  import opened Translator
  import Arbitration
  import SysTick
  import Reinjection
  import TimeTravel
  import Bus

  /** Instructions that can move the PC without ending a block: the undefined ones, which
      enter a fault handler, and moves or additions to the PC. */
  predicate HiddenJump(i: Insn) {
    i.op.Undefined? || ((i.op.MovReg? || i.op.AddRegT2?) && i.rd == REG_PC)
  }

  /** The instruction either goes on at the given address or fails. */
  predicate GoesTo(e: Effect, pc: u32) {
    if e.Next? then e.pc == pc else !e.ok
  }

  lemma LoadStoreGoesOn(c: CpuState, m: Bus.Memory, i: Insn, pc: u32)
    ensures GoesTo(LoadStore(c, m, i, pc), pc)
  {
    hide Bus.Read, Bus.Write, Add32, EffectiveAddress, Indexed, Literal, ShiftLeft;
  }

  lemma TransferGoesOn(c: CpuState, m: Bus.Memory, i: Insn, pc: u32)
    requires !IsTerminator(i.op)
    ensures GoesTo(Transfer(c, m, i, pc), pc)
  {
    hide LoadRegs, StoreRegs, Count, Add32, Sub32;
  }

  lemma PerformGoesOn(c: CpuState, m: Bus.Memory, i: Insn, pc: u32)
    requires !IsTerminator(i.op) && !HiddenJump(i)
    ensures GoesTo(Perform(c, m, i, pc), pc)
  {
    hide Transfer, LoadStore, DataProcessing, Msr, Mrs, ExcEnter, ExcReturn, CondPass, IsExcReturn, LoadRegs, Add32;
    LoadStoreGoesOn(c, m, i, pc);
    TransferGoesOn(c, m, i, pc);
  }

  /** Every instruction but those goes on at the next address unless it ends a block. */
  lemma StraightInterpreter(decoder: (u32, Option<u32>, Option<u32>) -> Insn, i: Insn)
    requires !IsTerminator(i.op) && !HiddenJump(i)
    ensures Straight(Interpreter(decoder), i)
  {
    hide Perform, CondPass, Returns, IsFlagSetter;
    forall b: Board | b.c.Pc() == i.pc && Exec(b, i).1
      ensures Exec(b, i).0.c.Pc() == Add32(i.pc, i.size)
    {
      PerformGoesOn(b.c, b.m, i, Add32(b.c.Pc(), i.size));
    }
  }

  /* The cycle counter is written and never read. */

  function Zeroed(c: CpuState): CpuState { c.(cycles := 0) }

  predicate SameEffect(e: Effect, e': Effect) {
    if e.Next? then e' == Next(Zeroed(e.c), e.m, e.pc) else e' == End(Zeroed(e.c), e.m, e.ok)
  }

  /** Neither halted nor put into an IT block. */
  predicate Unmoved(c: CpuState, c': CpuState) { c'.halted == c.halted && c'.itstate == c.itstate }

  /** An instruction that goes on has neither halted the core nor opened an IT block. */
  predicate Awake(c: CpuState, e: Effect) {
    if e.Next? then Unmoved(c, e.c) else !e.ok
  }

  /** Neither restarts a halted core nor touches the cycle counter. */
  predicate Sticky(c: CpuState, e: Effect) { (c.halted ==> e.c.halted) && e.c.cycles == c.cycles }

  /** The same effect whatever the cycle counter, which neither restarts the core nor halts it by succeeding. */
  predicate Regular(c: CpuState, e: Effect, e': Effect) {
    SameEffect(e, e') && Awake(c, e) && Sticky(c, e)
  }

  /** Sixteen-bit data processing. */
  predicate Narrow(op: Op) {
    op.MovImm? || op.AddReg? || op.SubReg? || op.AddImm3? || op.AddImm8? || op.SubImm3? || op.SubImm8? || op.AndReg? ||
    op.OrrReg? || op.EorReg? || op.AdcReg? || op.SbcReg? || op.RsbImm? || op.CmpImm? || op.CmpReg? || op.CmpRegT2? ||
    op.CmnReg? || op.TstReg?
  }

  lemma NarrowBlind(c: CpuState, i: Insn)
    requires Narrow(i.op)
    ensures DataProcessing(Zeroed(c), i) == Zeroed(DataProcessing(c, i))
  {
    hide FlagsAdd, FlagsSub, FlagsNz, And32, Or32, Xor32, Add32, Sub32, T32Shift, Sum, Test;
    match i.op
    case MovImm =>
    case AddReg =>
    case SubReg =>
    case AddImm3 =>
    case AddImm8 =>
    case SubImm3 =>
    case SubImm8 =>
    case AndReg =>
    case OrrReg =>
    case EorReg =>
    case AdcReg =>
    case SbcReg =>
    case RsbImm =>
    case CmpImm =>
    case CmpReg =>
    case CmpRegT2 =>
    case CmnReg =>
    case _ =>
  }

  lemma WideBlind(c: CpuState, i: Insn)
    requires !Narrow(i.op)
    ensures DataProcessing(Zeroed(c), i) == Zeroed(DataProcessing(c, i))
  {
    hide FlagsAdd, FlagsSub, FlagsNz, And32, Or32, Xor32, Add32, Sub32, T32Shift, Sum, Test;
    match i.op
    case T32MovImm =>
    case T32Movw =>
    case T32AddImm =>
    case T32SubImm =>
    case T32AndImm =>
    case T32OrrImm =>
    case T32EorImm =>
    case T32Addw =>
    case T32Subw =>
    case T32CmpImm =>
    case T32CmnImm =>
    case T32CmpReg =>
    case _ =>
  }

  lemma DataBlind(c: CpuState, i: Insn)
    ensures DataProcessing(Zeroed(c), i) == Zeroed(DataProcessing(c, i))
  {
    hide DataProcessing, Narrow;
    if Narrow(i.op) {
      NarrowBlind(c, i);
    } else {
      WideBlind(c, i);
    }
  }

  lemma DataAwake(c: CpuState, i: Insn)
    ensures Unmoved(c, DataProcessing(c, i)) && DataProcessing(c, i).cycles == c.cycles
  {
    hide FlagsAdd, FlagsSub, FlagsNz, And32, Or32, Xor32, Add32, Sub32, T32Shift, Sum, Test;
    match i.op
    case MovImm =>
    case AddReg =>
    case SubReg =>
    case AddImm3 =>
    case AddImm8 =>
    case SubImm3 =>
    case SubImm8 =>
    case AndReg =>
    case OrrReg =>
    case EorReg =>
    case AdcReg =>
    case SbcReg =>
    case RsbImm =>
    case CmpImm =>
    case CmpReg =>
    case CmpRegT2 =>
    case CmnReg =>
    case TstReg =>
    case T32MovImm =>
    case T32Movw =>
    case T32AddImm =>
    case T32SubImm =>
    case T32AndImm =>
    case T32OrrImm =>
    case T32EorImm =>
    case T32Addw =>
    case T32Subw =>
    case T32CmpImm =>
    case T32CmnImm =>
    case T32CmpReg =>
    case _ =>
  }

  lemma AccessRegular(c: CpuState, m: Bus.Memory, i: Insn, a: u32, n: Bus.Width, v: u32, pc: u32)
    ensures Regular(c, LoadTo(c, m, a, n, i.rd, pc), LoadTo(Zeroed(c), m, a, n, i.rd, pc))
    ensures Regular(c, StoreFrom(c, m, a, n, v, pc), StoreFrom(Zeroed(c), m, a, n, v, pc))
    ensures Regular(c, Wb(LoadTo(c, m, a, n, i.rd, pc), i, Indexed(c, i)),
      Wb(LoadTo(Zeroed(c), m, a, n, i.rd, pc), i, Indexed(c, i)))
    ensures Regular(c, Wb(StoreFrom(c, m, a, n, v, pc), i, Indexed(c, i)),
      Wb(StoreFrom(Zeroed(c), m, a, n, v, pc), i, Indexed(c, i)))
  {
    hide Bus.Read, Bus.Write, Indexed;
  }

  lemma AddressBlind(c: CpuState, i: Insn)
    ensures Indexed(Zeroed(c), i) == Indexed(c, i) && EffectiveAddress(Zeroed(c), i) == EffectiveAddress(c, i)
    ensures Literal(Zeroed(c)) == Literal(c)
  {
    hide Add32, Sub32, Aligned;
  }

  predicate Paired(op: Op) { op.T32LdrdImm? || op.T32StrdImm? }

  lemma LdrdRegular(c: CpuState, m: Bus.Memory, i: Insn, pc: u32)
    requires i.op.T32LdrdImm?
    ensures Regular(c, LoadStore(c, m, i, pc), LoadStore(Zeroed(c), m, i, pc))
  {
    hide Bus.Read, Bus.Write, Add32, Indexed, EffectiveAddress, Literal;
    AddressBlind(c, i);
  }

  lemma StrdRegular(c: CpuState, m: Bus.Memory, i: Insn, pc: u32)
    requires i.op.T32StrdImm?
    ensures Regular(c, LoadStore(c, m, i, pc), LoadStore(Zeroed(c), m, i, pc))
  {
    hide Bus.Read, Bus.Write, Add32, Indexed, EffectiveAddress, Literal;
    AddressBlind(c, i);
  }

  lemma PairedRegular(c: CpuState, m: Bus.Memory, i: Insn, pc: u32)
    requires Paired(i.op)
    ensures Regular(c, LoadStore(c, m, i, pc), LoadStore(Zeroed(c), m, i, pc))
  {
    hide LoadStore, Regular;
    if i.op.T32LdrdImm? {
      LdrdRegular(c, m, i, pc);
    } else {
      StrdRegular(c, m, i, pc);
    }
  }

  lemma LoadStoreRegular(c: CpuState, m: Bus.Memory, i: Insn, pc: u32)
    requires !Paired(i.op)
    ensures Regular(c, LoadStore(c, m, i, pc), LoadStore(Zeroed(c), m, i, pc))
  {
    hide LoadTo, StoreFrom, Wb, Add32, Sub32, ShiftLeft, EffectiveAddress, Indexed, Literal, Regular;
    AddressBlind(c, i);
    NextRegular(c, m, pc);
    var rn, rm, v := c.r[i.rn], c.r[i.rm], c.r[i.rd];
    var ea := EffectiveAddress(c, i);
    match i.op
    case LdrImm => AccessRegular(c, m, i, Add32(rn, i.imm), 4, v, pc);
    case LdrbImm => AccessRegular(c, m, i, Add32(rn, i.imm), 1, v, pc);
    case LdrhImm => AccessRegular(c, m, i, Add32(rn, i.imm), 2, v, pc);
    case StrImm => AccessRegular(c, m, i, Add32(rn, i.imm), 4, v, pc);
    case StrbImm => AccessRegular(c, m, i, Add32(rn, i.imm), 1, v % 0x100, pc);
    case StrhImm => AccessRegular(c, m, i, Add32(rn, i.imm), 2, v % 0x1_0000, pc);
    case LdrSp => AccessRegular(c, m, i, Add32(c.r[REG_SP], i.imm), 4, v, pc);
    case StrSp => AccessRegular(c, m, i, Add32(c.r[REG_SP], i.imm), 4, v, pc);
    case LdrLit => AccessRegular(c, m, i, Add32(Literal(c), i.imm), 4, v, pc);
    case LdrReg => AccessRegular(c, m, i, Add32(rn, rm), 4, v, pc);
    case StrReg => AccessRegular(c, m, i, Add32(rn, rm), 4, v, pc);
    case T32LdrImm => AccessRegular(c, m, i, ea, 4, v, pc);
    case T32LdrbImm => AccessRegular(c, m, i, ea, 1, v, pc);
    case T32LdrhImm => AccessRegular(c, m, i, ea, 2, v, pc);
    case T32StrImm => AccessRegular(c, m, i, ea, 4, v, pc);
    case T32StrbImm => AccessRegular(c, m, i, ea, 1, v, pc);
    case T32StrhImm => AccessRegular(c, m, i, ea, 2, v, pc);
    case T32LdrLit =>
      AccessRegular(c, m, i, if i.add then Add32(Literal(c), i.imm) else Sub32(Literal(c), i.imm), 4, v, pc);
    case T32LdrReg => AccessRegular(c, m, i, Add32(rn, ShiftLeft(rm, i.shiftN)), 4, v, pc);
    case T32StrReg => AccessRegular(c, m, i, Add32(rn, ShiftLeft(rm, i.shiftN)), 4, v, pc);
    case _ =>
  }

  lemma NextRegular(c: CpuState, m: Bus.Memory, pc: u32)
    ensures Regular(c, Next(c, m, pc), Next(Zeroed(c), m, pc))
  {
  }

  lemma ReturnBlind(c: CpuState, m: Bus.Memory, ret: u32)
    ensures var o, o' := ExcReturn(c, m, ret), ExcReturn(Zeroed(c), m, ret); o' == o.(c := Zeroed(o.c))
  {
    hide Bus.ReadWords, And32, Even, Add32, PoppedRegs, WithSpSel, WithoutSpSel;
  }

  lemma PopBlind(c: CpuState, m: Bus.Memory, i: Insn, pc: u32)
    requires i.op.Pop?
    ensures SameEffect(Transfer(c, m, i, pc), Transfer(Zeroed(c), m, i, pc))
  {
    hide LoadRegs, Count, Add32, ExcReturn, Even;
    var (r, ok) := LoadRegs(m, c.r, i.regs, 0, 16, c.r[REG_SP]);
    var c' := SetReg(c.(r := r[REG_PC := c.Pc()]), REG_SP, Add32(c.r[REG_SP], 4 * Count(i.regs, 16)));
    ReturnBlind(c', m, r[REG_PC]);
  }

  lemma LoadsBlind(c: CpuState, m: Bus.Memory, i: Insn, pc: u32)
    requires i.op.Ldm? || i.op.T32Ldm?
    ensures SameEffect(Transfer(c, m, i, pc), Transfer(Zeroed(c), m, i, pc))
  {
    hide LoadRegs, StoreRegs, Count, Add32, Sub32, ExcReturn, Even;
  }

  lemma StoresBlind(c: CpuState, m: Bus.Memory, i: Insn, pc: u32)
    requires !i.op.Pop? && !i.op.Ldm? && !i.op.T32Ldm?
    ensures SameEffect(Transfer(c, m, i, pc), Transfer(Zeroed(c), m, i, pc))
  {
    hide LoadRegs, StoreRegs, Count, Add32, Sub32, ExcReturn, Even;
  }

  lemma TransferBlind(c: CpuState, m: Bus.Memory, i: Insn, pc: u32)
    ensures SameEffect(Transfer(c, m, i, pc), Transfer(Zeroed(c), m, i, pc))
  {
    hide Transfer, SameEffect;
    if i.op.Pop? {
      PopBlind(c, m, i, pc);
    } else if i.op.Ldm? || i.op.T32Ldm? {
      LoadsBlind(c, m, i, pc);
    } else {
      StoresBlind(c, m, i, pc);
    }
  }

  lemma MsrBlind(c: CpuState, sysm: u32, mask: nat, v: u32)
    ensures Msr(Zeroed(c), sysm, mask, v) == Zeroed(Msr(c, sysm, mask, v))
    ensures Mrs(Zeroed(c), sysm) == Mrs(c, sysm)
  {
    hide And32, Or32, Aligned;
  }

  lemma UndefinedBlind(c: CpuState, m: Bus.Memory)
    ensures var o, o' := RaiseUndefined(c, m), RaiseUndefined(Zeroed(c), m); o' == o.(c := Zeroed(o.c))
  {
    hide ExcEnter, Or32;
    var c := c.(cfsr := Or32(c.cfsr, 0x1_0000));
    EnterBlind(c.(hfsr := Or32(c.hfsr, 0x4000_0000)), m, EXC_HARD_FAULT);
    EnterBlind(c, m, EXC_USAGE_FAULT);
  }

  predicate Special(op: Op) {
    op.Nop? || op.T32Nop? || op.MovReg? || op.AddRegT2? || op.BCond? || op.T32BCond? || op.BUncond? || op.T32Bl? ||
    op.Cbz? || op.Cbnz? || op.Bx? || op.BlxReg? || op.Udf? || op.Bkpt? || op.Svc? || op.Undefined? || op.It? ||
    op.Cps? || op.T32Mrs? || op.T32Msr?
  }

  lemma PerformGroup(c: CpuState, m: Bus.Memory, i: Insn, pc: u32)
    requires !Special(i.op)
    ensures Perform(c, m, i, pc) ==
      if IsTransfer(i.op) then Transfer(c, m, i, pc) else if IsLoadStore(i.op) then LoadStore(c, m, i, pc)
      else Next(DataProcessing(c, i), m, pc)
  {
    hide Transfer, LoadStore, DataProcessing, Msr, Mrs, ExcEnter, ExcReturn, RaiseUndefined, CondPass, Add32, Even;
  }

  predicate Enters(op: Op) { op.Undefined? || op.Bx? || op.Svc? }

  /** The instructions that may enter or leave an exception. */
  lemma PerformEnters(c: CpuState, m: Bus.Memory, i: Insn, pc: u32)
    ensures i.op.Bx? ==>
      Perform(c, m, i, pc) ==
      if IsExcReturn(c.r[i.rm], c) then FromOutcome(ExcReturn(c, m, c.r[i.rm])) else Next(c, m, Even(c.r[i.rm]))
    ensures i.op.Svc? ==> Perform(c, m, i, pc) == FromOutcome(ExcEnter(SetReg(c, REG_PC, pc), m, EXC_SVC))
    ensures i.op.Undefined? ==>
      var o := RaiseUndefined(c, m); Perform(c, m, i, pc) == End(o.c, o.m, true)
  {
    hide Transfer, LoadStore, DataProcessing, Msr, Mrs, ExcEnter, ExcReturn, RaiseUndefined, CondPass, Add32, Even,
         SetThumb, IsTransfer, IsLoadStore;
  }

  /** BX of an exception-return value in Handler mode. */
  lemma BxBlind(c: CpuState, m: Bus.Memory, i: Insn, pc: u32)
    requires i.op.Bx?
    ensures SameEffect(Perform(c, m, i, pc), Perform(Zeroed(c), m, i, pc))
  {
    hide Perform, ExcReturn, Even;
    PerformEnters(c, m, i, pc);
    PerformEnters(Zeroed(c), m, i, pc);
    ReturnBlind(c, m, c.r[i.rm]);
  }

  lemma SvcBlind(c: CpuState, m: Bus.Memory, i: Insn, pc: u32)
    requires i.op.Svc?
    ensures SameEffect(Perform(c, m, i, pc), Perform(Zeroed(c), m, i, pc))
  {
    hide Perform, ExcEnter;
    PerformEnters(c, m, i, pc);
    PerformEnters(Zeroed(c), m, i, pc);
    EnterBlind(SetReg(c, REG_PC, pc), m, EXC_SVC);
  }

  lemma RaiseBlind(c: CpuState, m: Bus.Memory, i: Insn, pc: u32)
    requires i.op.Undefined?
    ensures SameEffect(Perform(c, m, i, pc), Perform(Zeroed(c), m, i, pc))
  {
    hide Perform, RaiseUndefined;
    PerformEnters(c, m, i, pc);
    PerformEnters(Zeroed(c), m, i, pc);
    UndefinedBlind(c, m);
  }

  lemma EnteringBlind(c: CpuState, m: Bus.Memory, i: Insn, pc: u32)
    requires Enters(i.op)
    ensures SameEffect(Perform(c, m, i, pc), Perform(Zeroed(c), m, i, pc))
  {
    hide Perform, SameEffect;
    if i.op.Bx? {
      BxBlind(c, m, i, pc);
    } else if i.op.Svc? {
      SvcBlind(c, m, i, pc);
    } else {
      RaiseBlind(c, m, i, pc);
    }
  }

  lemma SpecialBlind(c: CpuState, m: Bus.Memory, i: Insn, pc: u32)
    requires Special(i.op) && !Enters(i.op)
    ensures SameEffect(Perform(c, m, i, pc), Perform(Zeroed(c), m, i, pc))
  {
    hide Transfer, LoadStore, DataProcessing, Msr, Mrs, ExcEnter, ExcReturn, RaiseUndefined, CondPass, Add32, Even,
         SetThumb, IsTransfer, IsLoadStore;
    MsrBlind(c, i.imm, i.rs, c.r[i.rn]);
    match i.op
    case Nop =>
    case T32Nop =>
    case T32Msr =>
    case T32Mrs =>
    case MovReg =>
    case AddRegT2 =>
    case BCond =>
    case T32BCond =>
    case BUncond =>
    case T32Bl =>
    case Cbz =>
    case Cbnz =>
    case BlxReg =>
    case Udf =>
    case Bkpt =>
    case It =>
    case _ =>
  }

  lemma PerformBlind(c: CpuState, m: Bus.Memory, i: Insn, pc: u32)
    ensures SameEffect(Perform(c, m, i, pc), Perform(Zeroed(c), m, i, pc))
  {
    hide Perform, Transfer, LoadStore, DataProcessing;
    if Enters(i.op) {
      EnteringBlind(c, m, i, pc);
    } else if Special(i.op) {
      SpecialBlind(c, m, i, pc);
    } else {
      PerformGroup(c, m, i, pc);
      PerformGroup(Zeroed(c), m, i, pc);
      DataBlind(c, i);
      TransferBlind(c, m, i, pc);
      if Paired(i.op) {
        PairedRegular(c, m, i, pc);
      } else {
        LoadStoreRegular(c, m, i, pc);
      }
    }
  }

  lemma ExecuteBlind(c: CpuState, m: Bus.Memory, i: Insn)
    ensures var o, o' := Execute(c, m, i), Execute(Zeroed(c), m, i);
      o'.ok == o.ok && o'.m == o.m && Zeroed(o'.c) == Zeroed(o.c)
  {
    hide Perform, CondPass;
    PerformBlind(c, m, i, Add32(c.Pc(), i.size));
  }

  lemma ReturnsBlind(c: CpuState, m: Bus.Memory, i: Insn)
    ensures Returns(Zeroed(c), m, i) == Returns(c, m, i)
  {
    hide CondPass, LoadRegs;
  }

  /** No instruction of the interpreter depends on the cycle counter. */
  lemma InterpreterBlind(decoder: (u32, Option<u32>, Option<u32>) -> Insn)
    ensures CycleBlind(Interpreter(decoder))
  {
    hide Execute, Returns;
    forall b: Board, i: Insn
      ensures var x, y := Exec(b, i), Exec(Uncounted(b), i); x.1 == y.1 && Uncounted(x.0) == Uncounted(y.0)
    {
      ExecuteBlind(b.c, b.m, i);
      ReturnsBlind(b.c, b.m, i);
    }
  }

  /* The timers, and a halted core. */

  /** No instruction reads or writes the timers. */
  lemma InterpreterClockless(decoder: (u32, Option<u32>, Option<u32>) -> Insn)
    ensures Clockless(Interpreter(decoder)) && TimerAlone(Interpreter(decoder))
  {
    hide Execute, Returns, SysTick.Ticked;
  }

  lemma ReturnSticky(c: CpuState, m: Bus.Memory, ret: u32)
    ensures var o := ExcReturn(c, m, ret); (c.halted ==> o.c.halted) && o.c.cycles == c.cycles
  {
    hide Bus.ReadWords, And32, Even, Add32, PoppedRegs, WithSpSel, WithoutSpSel;
  }

  lemma TransferSticky(c: CpuState, m: Bus.Memory, i: Insn, pc: u32)
    ensures Sticky(c, Transfer(c, m, i, pc))
  {
    hide LoadRegs, StoreRegs, Count, Add32, Sub32, ExcReturn, Even;
    if i.op.Pop? {
      var (r, ok) := LoadRegs(m, c.r, i.regs, 0, 16, c.r[REG_SP]);
      var c' := SetReg(c.(r := r[REG_PC := c.Pc()]), REG_SP, Add32(c.r[REG_SP], 4 * Count(i.regs, 16)));
      ReturnSticky(c', m, r[REG_PC]);
    }
  }

  lemma UndefinedSticky(c: CpuState, m: Bus.Memory)
    ensures var o := RaiseUndefined(c, m); (c.halted ==> o.c.halted) && o.c.cycles == c.cycles
  {
    hide ExcEnter, Or32;
    var c := c.(cfsr := Or32(c.cfsr, 0x1_0000));
    EntrySticky(c.(hfsr := Or32(c.hfsr, 0x4000_0000)), m, EXC_HARD_FAULT);
    EntrySticky(c, m, EXC_USAGE_FAULT);
  }

  lemma MsrSticky(c: CpuState, sysm: u32, mask: nat, v: u32)
    ensures Msr(c, sysm, mask, v).halted == c.halted && Msr(c, sysm, mask, v).cycles == c.cycles
  {
    hide And32, Or32, Aligned;
  }

  lemma SpecialSticky(c: CpuState, m: Bus.Memory, i: Insn, pc: u32)
    requires Special(i.op)
    ensures Sticky(c, Perform(c, m, i, pc))
  {
    hide Transfer, LoadStore, DataProcessing, Msr, Mrs, ExcEnter, ExcReturn, RaiseUndefined, CondPass, Add32, Even,
         SetThumb, IsTransfer, IsLoadStore;
    match i.op
    case T32Msr => MsrSticky(c, i.imm, i.rs, c.r[i.rn]);
    case Undefined => UndefinedSticky(c, m);
    case Bx => ReturnSticky(c, m, c.r[i.rm]);
    case Svc => EntrySticky(SetReg(c, REG_PC, pc), m, EXC_SVC);
    case _ =>
  }

  lemma PerformSticky(c: CpuState, m: Bus.Memory, i: Insn, pc: u32)
    ensures Sticky(c, Perform(c, m, i, pc))
  {
    hide Perform, Transfer, LoadStore, DataProcessing;
    if Special(i.op) {
      SpecialSticky(c, m, i, pc);
    } else {
      PerformGroup(c, m, i, pc);
      DataAwake(c, i);
      TransferSticky(c, m, i, pc);
      if Paired(i.op) {
        PairedRegular(c, m, i, pc);
      } else {
        LoadStoreRegular(c, m, i, pc);
      }
    }
  }

  /** Nothing restarts a halted core. */
  lemma InterpreterHaltSticks(decoder: (u32, Option<u32>, Option<u32>) -> Insn)
    ensures HaltSticks(Interpreter(decoder))
  {
    hide Perform, CondPass, Returns;
    forall b: Board, i: Insn | b.c.halted
      ensures Exec(b, i).0.c.halted
    {
      PerformSticky(b.c, b.m, i, Add32(b.c.Pc(), i.size));
    }
  }

  /** An instruction advances the cycle counter by one or not at all, and taking an
      exception does not. */
  lemma InterpreterPaced(decoder: (u32, Option<u32>, Option<u32>) -> Insn)
    ensures Paced(Interpreter(decoder))
  {
    hide Exec, Decode, Dispatch, Tick;
    var env := Interpreter(decoder);
    forall b: Board
      ensures var b' := UnitStep(env, b).0; b.c.cycles <= b'.c.cycles <= b.c.cycles + 1
    {
      var i := Decode(env, b.m, b.c.Pc());
      ExecPaced(b, i);
      SettleSticky(Exec(b, i).0, 1);
    }
  }

  lemma ExecPaced(b: Board, i: Insn)
    ensures b.c.cycles <= Exec(b, i).0.c.cycles <= b.c.cycles + 1
  {
    hide Perform, CondPass, Returns;
    PerformSticky(b.c, b.m, i, Add32(b.c.Pc(), i.size));
  }

  /* The laws at work. */

  /** The interpreter under the translator's loop: a batch within its budget takes SysTick
      where the plain loop does. */
  lemma InterpreterBatchIsRun(decoder: (u32, Option<u32>, Option<u32>) -> Insn, b: Board, n: nat, remaining: nat)
    requires Undisturbed(Interpreter(decoder), b, n) && n > 0 && !b.c.halted
    requires !b.st.irqPending && n <= SafeBudget(b.st, b.pendsv, remaining)
    ensures var env := Interpreter(decoder); var (b', k) := Sequential(env, b, n); var r := Run(env, b, n);
      if b'.c.halted then r.0.c.halted && r.1 == k else r == (Settle(b', k), k)
  {
    hide Lawful, Clockless, TimerAlone, Undisturbed, Settle, Sequential, Run, SafeBudget, Interpreter;
    InterpreterLawful(decoder);
    InterpreterClockless(decoder);
    BudgetedBatchIsRun(Interpreter(decoder), b, n, remaining);
  }

  /** The interpreter under time travel: replaying the log is the original run. */
  lemma InterpreterReplays(decoder: (u32, Option<u32>, Option<u32>) -> Insn, b: Board, acts: seq<Act>, log: seq<Event>,
    target: nat, at: nat)
    requires TimeTravel.History(Interpreter(decoder), b, acts, log, target) && TimeTravel.FirstFrom(log, b.c.cycles, at)
    ensures var env := Interpreter(decoder); Ref(env, b, log[at..], target) == At(env, b, acts, target)
  {
    hide Paced, TimeTravel.History, TimeTravel.FirstFrom, Ref, At, Interpreter;
    InterpreterPaced(decoder);
    TimeTravel.ReplayIsOriginal(Interpreter(decoder), b, acts, log, target, at);
  }

  lemma ExecKeepsRing(b: Board, i: Insn, u: Uart)
    ensures Exec(b.(uart := u), i) == (Exec(b, i).0.(uart := u), Exec(b, i).1)
  {
    hide Execute, Returns;
  }

  lemma DispatchKeepsRing(b: Board, u: Uart)
    ensures Dispatch(Tick(b.(uart := u), 1)) == Dispatch(Tick(b, 1)).(uart := u)
  {
    hide SysTick.Ticked, TickDwt, ExcEnter, Arbitration.Best;
  }

  /** The interpreter leaves the ring alone, as instructions reach flat memory only: so for it the
      bytes injected again decide whether a replay is exact. */
  lemma InterpreterRingAlone(decoder: (u32, Option<u32>, Option<u32>) -> Insn)
    ensures Reinjection.RingAlone(Interpreter(decoder))
  {
    hide Exec, Dispatch, Tick, Decode;
    var env := Interpreter(decoder);
    forall b: Board, u: Uart
      ensures UnitStep(env, b.(uart := u)) == (UnitStep(env, b).0.(uart := u), UnitStep(env, b).1)
    {
      var i := Decode(env, b.m, b.c.Pc());
      ExecKeepsRing(b, i, u);
      DispatchKeepsRing(Exec(b, i).0, u);
    }
  }
}

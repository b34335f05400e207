/** Single activity: over a run, the lines marked active are exactly the one being handled. */
module Activity {
  import opened Words
  import opened Cpu
  import opened Insn
  import opened Nvic
  import opened Executor
  import opened Arbitration
  import opened RunLoop
  import opened Machine
  import Bus

  /** Mode and exception number are as they were. */
  predicate SameMode(c: CpuState, c': CpuState) { c'.mode == c.mode && c'.ipsr == c.ipsr }

  lemma DataKeepsMode(c: CpuState, i: Insn)
    ensures SameMode(c, DataProcessing(c, i))
  {
    hide FlagsAdd, FlagsSub, FlagsNz, And32, Or32, Xor32, Add32, Sub32, T32Shift, Sum, Test, HiReg;
    match i.op
    case MovImm =>
    case AddReg =>
    case SubReg =>
    case AddImm3 =>
    case AddImm8 =>
    case SubImm3 =>
    case SubImm8 =>
    case AndReg =>
    case OrrReg =>
    case EorReg =>
    case AdcReg =>
    case SbcReg =>
    case RsbImm =>
    case CmpImm =>
    case CmpReg =>
    case CmpRegT2 =>
    case CmnReg =>
    case TstReg =>
    case T32MovImm =>
    case T32Movw =>
    case T32AddImm =>
    case T32SubImm =>
    case T32AndImm =>
    case T32OrrImm =>
    case T32EorImm =>
    case T32Addw =>
    case T32Subw =>
    case T32CmpImm =>
    case T32CmnImm =>
    case T32CmpReg =>
    case _ =>
  }

  lemma LoadStoreKeepsMode(c: CpuState, m: Bus.Memory, i: Insn, pc: u32)
    ensures SameMode(c, LoadStore(c, m, i, pc).c)
  {
    hide Bus.Read, Bus.Write, Add32, EffectiveAddress, Indexed, Literal, ShiftLeft;
    match i.op
    case LdrImm =>
    case StrImm =>
    case LdrbImm =>
    case StrbImm =>
    case LdrhImm =>
    case StrhImm =>
    case LdrSp =>
    case StrSp =>
    case LdrLit =>
    case LdrReg =>
    case StrReg =>
    case T32LdrImm =>
    case T32LdrbImm =>
    case T32LdrhImm =>
    case T32StrImm =>
    case T32StrbImm =>
    case T32StrhImm =>
    case T32LdrLit =>
    case T32LdrReg =>
    case T32StrReg =>
    case T32LdrdImm =>
    case _ =>
  }

  /** A pop that does not return from an exception, and every other multiple transfer. */
  lemma TransferKeepsMode(c: CpuState, m: Bus.Memory, i: Insn, pc: u32)
    requires !ReturnForm(c, m, i)
    ensures SameMode(c, Transfer(c, m, i, pc).c)
  {
    hide LoadRegs, StoreRegs, Count, ExcReturn, Add32, Sub32, IsExcReturn;
  }

  lemma MsrKeepsMode(c: CpuState, sysm: u32, mask: nat, v: u32)
    ensures SameMode(c, Msr(c, sysm, mask, v))
  {
    hide And32, Or32, Aligned;
  }

  lemma PerformKeepsMode(c: CpuState, m: Bus.Memory, i: Insn, pc: u32)
    requires !i.op.Svc? && !i.op.Undefined? && !ReturnForm(c, m, i)
    ensures SameMode(c, Perform(c, m, i, pc).c)
  {
    hide Transfer, LoadStore, DataProcessing, Msr, Mrs, ExcEnter, ExcReturn, CondPass, IsExcReturn, LoadRegs, Add32;
    DataKeepsMode(c, i);
    LoadStoreKeepsMode(c, m, i, pc);
    TransferKeepsMode(c, m, i, pc);
    MsrKeepsMode(c, i.imm, i.rs, c.r[i.rn]);
  }

  lemma ExecuteKeepsMode(c: CpuState, m: Bus.Memory, i: Insn)
    requires !i.op.Svc? && !i.op.Undefined? && !Returns(c, m, i)
    ensures SameMode(c, Execute(c, m, i).c)
  {
    hide Perform, CondPass, ReturnForm;
    if !c.InIt() || CondPass(c.apsr, c.ItCond()) {
      PerformKeepsMode(c, m, i, Add32(c.Pc(), i.size));
    }
  }

  /** The value an exception return branches to. */
  function ReturnValue(c: CpuState, m: Bus.Memory, i: Insn): u32 {
    if i.op.Bx? then c.r[i.rm] else LoadRegs(m, c.r, i.regs, 0, 16, c.r[REG_SP]).0[REG_PC]
  }

  /** An exception return with a value for Thread mode, that succeeds, ends in Thread mode. */
  lemma ReturnToThread(c: CpuState, m: Bus.Memory, i: Insn)
    requires Returns(c, m, i) && Execute(c, m, i).ok && !ToHandler(ReturnValue(c, m, i))
    ensures Execute(c, m, i).c.mode.Thread?
  {
    hide CondPass, LoadRegs, Count, Bus.ReadWords, And32, Even, Add32, IsExcReturn;
  }

  /* The invariant. */

  /** The line an exception number stands for. */
  function LineOf(c: CpuState): Option<nat> {
    if c.mode.Handler? && EXC_IRQ0 <= c.ipsr < EXC_IRQ0 + LINES then Some(c.ipsr - EXC_IRQ0) else None
  }

  /** Exactly the given line is active. */
  ghost predicate OnlyActive(active: Bank, line: Option<nat>) {
    forall j: nat :: j < 256 ==> (On(active, j) <==> line == Some(j))
  }

  ghost predicate SingleActivity(b: Board) {
    OnlyActive(b.nvic.active, LineOf(b.c))
  }

  /** A turn without nested exceptions: the instruction succeeds, is no supervisor call and
      not undefined, returns only to Thread mode, leaves the active bits alone otherwise,
      and any exception frame is pushed in full. */
  ghost predicate CalmTurn(env: Env, b: Board) {
    var i := Decode(env, b.m, b.c.Pc());
    && !i.op.Svc? && !i.op.Undefined? && Execute(b.c, b.m, i).ok
    && (Returns(b.c, b.m, i) ==> !ToHandler(ReturnValue(b.c, b.m, i)))
    && CalmDispatch(Tick(Exec(b, i).0, 1))
  }

  /** Whatever exception is dispatched, its entry succeeds. */
  predicate CalmDispatch(b: Board) {
    Interruptible(b.c) ==>
      && (b.st.irqPending ==> ExcEnter(b.c, b.m, EXC_SYSTICK).ok)
      && (b.pendsv ==> ExcEnter(b.c, b.m, EXC_PENDSV).ok)
      && (Best(b.nvic).Some? ==> ExcEnter(b.c, b.m, EXC_IRQ0 + Best(b.nvic).value).ok)
  }

  lemma ClearOnly(active: Bank, line: nat)
    requires line < LINES && OnlyActive(active, Some(line))
    ensures OnlyActive(Without(active, line), None)
  {
    forall j: nat | j < 256
      ensures !On(Without(active, line), j)
    {
      WithOn(active, line, j);
    }
  }

  lemma SetOnly(active: Bank, line: nat)
    requires line < LINES && OnlyActive(active, None)
    ensures OnlyActive(With(active, line), Some(line))
  {
    forall j: nat | j < 256
      ensures On(With(active, line), j) <==> Some(line) == Some(j)
    {
      WithOn(active, line, j);
    }
  }

  lemma EnteredState(c: CpuState, m: Bus.Memory, exc: u8)
    requires ExcEnter(c, m, exc).ok
    ensures ExcEnter(c, m, exc).c.mode.Handler? && ExcEnter(c, m, exc).c.ipsr == exc
  {
    hide Bus.WriteWords, Bus.Read, Frame;
  }

  lemma DispatchActivity(b: Board)
    requires SingleActivity(b) && CalmDispatch(b)
    ensures SingleActivity(Dispatch(b))
  {
    hide ExcEnter, OnlyActive, With, Best;
    if Interruptible(b.c) {
      if b.st.irqPending {
        EnteredState(b.c, b.m, EXC_SYSTICK);
      } else if b.pendsv {
        EnteredState(b.c, b.m, EXC_PENDSV);
      } else if Best(b.nvic).Some? {
        EnteredState(b.c, b.m, EXC_IRQ0 + Best(b.nvic).value);
        SetOnly(b.nvic.active, Best(b.nvic).value);
      }
    }
  }

  lemma ReturnsFromHandler(c: CpuState, m: Bus.Memory, i: Insn)
    requires Returns(c, m, i)
    ensures c.mode.Handler?
  {
    hide CondPass, LoadRegs;
  }

  lemma ExecActivity(b: Board, i: Insn)
    requires SingleActivity(b) && !i.op.Svc? && !i.op.Undefined? && Execute(b.c, b.m, i).ok
    requires Returns(b.c, b.m, i) ==> !ToHandler(ReturnValue(b.c, b.m, i))
    ensures SingleActivity(Exec(b, i).0)
  {
    hide Execute, Returns, ReturnValue, OnlyActive, Without;
    if Returns(b.c, b.m, i) {
      ReturnToThread(b.c, b.m, i);
      ReturnsFromHandler(b.c, b.m, i);
      if LineOf(b.c).Some? {
        ClearOnly(b.nvic.active, LineOf(b.c).value);
      }
    } else {
      ExecuteKeepsMode(b.c, b.m, i);
    }
  }

  /** Every turn of the run is calm. */
  ghost predicate CalmRun(env: Env, b: Board, n: nat)
    decreases n
  {
    n == 0 || b.c.halted || (CalmTurn(env, b) && CalmRun(env, UnitStep(env, b).0, n - 1))
  }

  /** Single activity, over any run of calm turns of the interpreter: in a handler for an
      external line that line and no other is active; otherwise none is. */
  lemma {:induction false} ActivityInvariant(decoder: (u32, Option<u32>, Option<u32>) -> Insn, b: Board, n: nat)
    requires SingleActivity(b) && CalmRun(Interpreter(decoder), b, n)
    ensures SingleActivity(Run(Interpreter(decoder), b, n).0)
    decreases n
  {
    hide SingleActivity, CalmDispatch, Dispatch, Exec, Decode, Returns, ReturnValue, ToHandler, Execute;
    if n != 0 && !b.c.halted {
      TurnActivity(decoder, b);
      ActivityInvariant(decoder, UnitStep(Interpreter(decoder), b).0, n - 1);
    }
  }

  lemma TurnActivity(decoder: (u32, Option<u32>, Option<u32>) -> Insn, b: Board)
    requires SingleActivity(b) && CalmTurn(Interpreter(decoder), b)
    ensures UnitStep(Interpreter(decoder), b).1 && SingleActivity(UnitStep(Interpreter(decoder), b).0)
  {
    hide OnlyActive, CalmDispatch, Dispatch, Decode, Returns, ReturnValue, ToHandler, Execute;
    var i := Decode(Interpreter(decoder), b.m, b.c.Pc());
    ExecActivity(b, i);
    DispatchActivity(Tick(Exec(b, i).0, 1));
  }
}

/** The interpreter as the run loop calls it, on a whole board. */
module Machine {
  import opened Words
  import opened Cpu
  import opened Insn
  import opened Nvic
  import opened Executor
  import opened RunLoop
  import opened Arbitration
  import Bus

  /** Read-only memory is untouched, and a failure halts the core. */
  ghost predicate Sound(m: Bus.Memory, e: Effect) {
    Bus.RomKept(m, e.m) && (e.End? && !e.ok ==> e.c.halted)
  }

  lemma {:induction false} StoresKeepRom(m: Bus.Memory, r: Regs, regs: set<Reg>, k: nat, hi: nat, a: u32)
    requires k <= hi <= 16
    ensures Bus.RomKept(m, StoreRegs(m, r, regs, k, hi, a).0)
    decreases hi - k
  {
    hide Bus.RomKept, Bus.Write;
    Bus.SelfKept(m);
    if k == hi {
    } else if k !in regs {
      StoresKeepRom(m, r, regs, k + 1, hi, a);
    } else if Bus.Write(m, a, 4, r[k]).Some? {
      var m' := Bus.Write(m, a, 4, r[k]).value;
      Bus.WriteKeeps(m, a, 4, r[k]);
      StoresKeepRom(m', r, regs, k + 1, hi, Add32(a, 4));
      Bus.RomKeptTrans(m, m', StoreRegs(m', r, regs, k + 1, hi, Add32(a, 4)).0);
    }
  }

  lemma StoreSound(c: CpuState, m: Bus.Memory, a: u32, n: Bus.Width, v: u32, pc: u32)
    ensures Sound(m, StoreFrom(c, m, a, n, v, pc))
  {
    hide Bus.RomKept, Bus.Write;
    Bus.SelfKept(m);
    if Bus.Write(m, a, n, v).Some? {
      Bus.WriteKeeps(m, a, n, v);
    }
  }

  lemma WbSound(m: Bus.Memory, e: Effect, i: Insn, v: u32)
    requires Sound(m, e)
    ensures Sound(m, Wb(e, i, v))
  {
    hide Bus.RomKept;
  }

  lemma StrdSound(c: CpuState, m: Bus.Memory, i: Insn, pc: u32)
    requires i.op.T32StrdImm?
    ensures Sound(m, LoadStore(c, m, i, pc))
  {
    hide Bus.RomKept, Bus.Write, Bus.Read, StoreFrom, Wb;
    Bus.SelfKept(m);
    var ea := EffectiveAddress(c, i);
    var w := Bus.Write(m, ea, 4, c.r[i.rd]);
    if w.Some? {
      Bus.WriteKeeps(m, ea, 4, c.r[i.rd]);
      var e := StoreFrom(c, w.value, Add32(ea, 4), 4, c.r[i.rs], pc);
      StoreSound(c, w.value, Add32(ea, 4), 4, c.r[i.rs], pc);
      WbSound(w.value, e, i, Indexed(c, i));
      Bus.RomKeptTrans(m, w.value, Wb(e, i, Indexed(c, i)).m);
    }
  }

  predicate Stores(op: Op) {
    op.StrImm? || op.StrbImm? || op.StrhImm? || op.StrSp? || op.StrReg? || op.T32StrImm? || op.T32StrbImm? ||
    op.T32StrhImm? ||
    op.T32StrReg?
  }

  /** Loads leave memory as it is. */
  lemma LoadKeeps(c: CpuState, m: Bus.Memory, i: Insn, pc: u32)
    requires !Stores(i.op) && !i.op.T32StrdImm?
    ensures var e := LoadStore(c, m, i, pc); e.m == m && (e.End? && !e.ok ==> e.c.halted)
  {
    hide Bus.Read, Bus.Write;
  }

  lemma StoreOne(c: CpuState, m: Bus.Memory, i: Insn, pc: u32, a: u32, n: Bus.Width, v: u32)
    ensures Sound(m, StoreFrom(c, m, a, n, v, pc)) && Sound(m, Wb(StoreFrom(c, m, a, n, v, pc), i, Indexed(c, i)))
  {
    hide Sound, StoreFrom;
    StoreSound(c, m, a, n, v, pc);
    WbSound(m, StoreFrom(c, m, a, n, v, pc), i, Indexed(c, i));
  }

  lemma StoresSound(c: CpuState, m: Bus.Memory, i: Insn, pc: u32)
    requires Stores(i.op)
    ensures Sound(m, LoadStore(c, m, i, pc))
  {
    hide Sound, StoreFrom, LoadTo, Wb;
    var rn, rm, v := c.r[i.rn], c.r[i.rm], c.r[i.rd];
    match i.op
    case StrImm => StoreOne(c, m, i, pc, Add32(rn, i.imm), 4, v);
    case StrbImm => StoreOne(c, m, i, pc, Add32(rn, i.imm), 1, v % 0x100);
    case StrhImm => StoreOne(c, m, i, pc, Add32(rn, i.imm), 2, v % 0x1_0000);
    case StrSp => StoreOne(c, m, i, pc, Add32(c.r[REG_SP], i.imm), 4, v);
    case StrReg => StoreOne(c, m, i, pc, Add32(rn, rm), 4, v);
    case T32StrImm => StoreOne(c, m, i, pc, EffectiveAddress(c, i), 4, v);
    case T32StrbImm => StoreOne(c, m, i, pc, EffectiveAddress(c, i), 1, v);
    case T32StrhImm => StoreOne(c, m, i, pc, EffectiveAddress(c, i), 2, v);
    case T32StrReg => StoreOne(c, m, i, pc, Add32(rn, ShiftLeft(rm, i.shiftN)), 4, v);
    case _ =>
  }

  lemma TransferSound(c: CpuState, m: Bus.Memory, i: Insn, pc: u32)
    ensures Sound(m, Transfer(c, m, i, pc))
  {
    hide Bus.RomKept, StoreRegs, LoadRegs, ExcReturn, Count;
    Bus.SelfKept(m);
    ReturnKeeps(m);
    match i.op
    case Push =>
      var sp := Sub32(c.r[REG_SP], 4 * Count(i.regs, 15));
      StoresKeepRom(m, SetReg(c, REG_SP, sp).r, i.regs, 0, 15, sp);
    case Stm => StoresKeepRom(m, c.r, i.regs, 0, 8, c.r[i.rn]);
    case T32Stm => StoresKeepRom(m, c.r[REG_PC := Add32(c.Pc(), 4)], i.regs, 0, 16, MultipleStart(c, i));
    case Pop =>
      var popped := LoadRegs(m, c.r, i.regs, 0, 16, c.r[REG_SP]);
      var c' := SetReg(c.(r := popped.0[REG_PC := c.Pc()]), REG_SP, Add32(c.r[REG_SP], 4 * Count(i.regs, 16)));
      assert ExcReturn(c', m, popped.0[REG_PC]).m == m;
    case Ldm =>
    case T32Ldm =>
    case _ =>
  }

  lemma ReturnKeeps(m: Bus.Memory)
    ensures forall c: CpuState, ret: u32 :: ExcReturn(c, m, ret).m == m
  {
    hide Bus.ReadWords;
  }

  lemma UndefinedSound(c: CpuState, m: Bus.Memory)
    ensures Bus.RomKept(m, RaiseUndefined(c, m).m)
  {
    hide Bus.RomKept, ExcEnter;
    var c := c.(cfsr := Or32(c.cfsr, 0x1_0000));
    EntryKeepsRom(c.(hfsr := Or32(c.hfsr, 0x4000_0000)), m, EXC_HARD_FAULT);
    EntryKeepsRom(c, m, EXC_USAGE_FAULT);
  }

  lemma PerformSound(c: CpuState, m: Bus.Memory, i: Insn, pc: u32)
    ensures Sound(m, Perform(c, m, i, pc))
  {
    hide Bus.RomKept, ExcEnter, ExcReturn, RaiseUndefined, Transfer, LoadStore, DataProcessing, CondPass, Msr, Mrs;
    Bus.SelfKept(m);
    ReturnKeeps(m);
    if i.op.Svc? {
      EntryKeepsRom(SetReg(c, REG_PC, pc), m, EXC_SVC);
    } else if i.op.Undefined? {
      UndefinedSound(c, m);
    } else if IsTransfer(i.op) {
      TransferSound(c, m, i, pc);
    } else if IsLoadStore(i.op) {
      LoadStoreSound(c, m, i, pc);
    }
  }

  lemma LoadStoreSound(c: CpuState, m: Bus.Memory, i: Insn, pc: u32)
    ensures Sound(m, LoadStore(c, m, i, pc))
  {
    hide Bus.RomKept, LoadStore;
    Bus.SelfKept(m);
    if Stores(i.op) {
      StoresSound(c, m, i, pc);
    } else if i.op.T32StrdImm? {
      StrdSound(c, m, i, pc);
    } else {
      LoadKeeps(c, m, i, pc);
    }
  }

  lemma ExecuteSound(c: CpuState, m: Bus.Memory, i: Insn)
    ensures var o := Execute(c, m, i); Bus.RomKept(m, o.m) && (!o.ok ==> o.c.halted)
  {
    hide Bus.RomKept, Perform, CondPass;
    Bus.SelfKept(m);
    PerformSound(c, m, i, Add32(c.Pc(), i.size));
  }

  /* The whole board. */

  /** The instruction returns from an exception: a branch or a pop of an EXC_RETURN value
      in Handler mode, its condition passed. */
  predicate Returns(c: CpuState, m: Bus.Memory, i: Insn) {
    (!c.InIt() || CondPass(c.apsr, c.ItCond())) && ReturnForm(c, m, i)
  }

  predicate ReturnForm(c: CpuState, m: Bus.Memory, i: Insn) {
    match i.op
    case Bx => IsExcReturn(c.r[i.rm], c)
    case Pop =>
      var popped := LoadRegs(m, c.r, i.regs, 0, 16, c.r[REG_SP]);
      popped.1 && REG_PC in i.regs && IsExcReturn(popped.0[REG_PC], c)
    case _ => false
  }

  /** Returning from an external interrupt also ends its activity. */
  function Exec(b: Board, i: Insn): (Board, bool) {
    var o := Execute(b.c, b.m, i);
    var irq := b.c.ipsr - EXC_IRQ0;
    var nvic :=
      if Returns(b.c, b.m, i) && 0 <= irq < LINES then b.nvic.(active := Without(b.nvic.active, irq)) else b.nvic;
    (b.(c := o.c, m := o.m, nvic := nvic), o.ok)
  }

  function Interpreter(decoder: (u32, Option<u32>, Option<u32>) -> Insn): Env {
    Env(Exec, decoder)
  }

  /** The interpreter is what the run loop takes it for, whatever the decoder. */
  lemma InterpreterLawful(decoder: (u32, Option<u32>, Option<u32>) -> Insn)
    ensures Lawful(Interpreter(decoder))
  {
    hide Bus.RomKept, Execute, Returns;
    forall b: Board, i: Insn
      ensures (!Exec(b, i).1 ==> Exec(b, i).0.c.halted) && Bus.RomKept(b.m, Exec(b, i).0.m)
    {
      ExecuteSound(b.c, b.m, i);
    }
  }
}

/** The PendSV context switch of the firmware's kernel, as the emulator executes it. */
module ContextSwitch {
  import opened Words
  import opened Cpu
  import opened Insn
  import opened Nvic
  import opened Executor
  import opened ExceptionRoundTrip
  import Bus

  /* The handler, instruction by instruction. */

  const PSP: u32 := 9
  const CALLEE: set<Reg> := {4, 5, 6, 7, 8, 9, 10, 11}
  const RETURN_TO_PSP: u32 := 0xFFFF_FFFD

  function Instr(op: Op, size: InsnSize, rd: Reg, rn: Reg, imm: u32): Insn {
    Insn(op, 0, size, rd, rn, 0, 0, imm, 0, {}, false, false, true, true, 0, 0, 0, 0)
  }

  function MrsPsp(): Insn { Instr(T32Mrs, 4, 0, 0, PSP) }
  function MsrPsp(): Insn { Instr(T32Msr, 4, 0, 0, PSP) }
  function StmdbCallee(): Insn { Instr(T32Stm, 4, 0, 0, 0).(regs := CALLEE, writeback := true, add := false) }
  function LdmiaCallee(): Insn { Instr(T32Ldm, 4, 0, 0, 0).(regs := CALLEE, writeback := true) }
  function LoadLit(rd: Reg, imm: u32): Insn { Instr(LdrLit, 2, rd, 0, imm) }
  function LoadLitWide(rd: Reg, imm: u32): Insn { Instr(T32LdrLit, 4, rd, 0, imm) }
  function Load(rd: Reg, rn: Reg): Insn { Instr(LdrImm, 2, rd, rn, 0) }
  function LoadWide(rd: Reg, rn: Reg): Insn { Instr(T32LdrImm, 4, rd, rn, 0) }
  function Store(rd: Reg, rn: Reg): Insn { Instr(StrImm, 2, rd, rn, 0) }
  function StoreWide(rd: Reg, rn: Reg): Insn { Instr(T32StrImm, 4, rd, rn, 0) }
  function BxLr(): Insn { Instr(Bx, 2, 0, 0, 0).(rm := REG_LR) }

  /** Offsets of the three literals from the instructions that load them. */
  datatype Pool = Pool(current: u32, next: u32, ret: u32)

  function Do(o: Outcome, i: Insn): Outcome {
    if o.ok then Execute(o.c, o.m, i) else o
  }

  /** Save R4-R11 on the process stack and the stack pointer in the current thread. */
  function SaveContext(o: Outcome, pool: Pool): Outcome {
    Do(Do(Do(Do(Do(o, MrsPsp()), StmdbCallee()), LoadLit(3, pool.current)), Load(1, 3)), Store(0, 1))
  }

  /** Make the next thread current. */
  function ChangeThread(o: Outcome, pool: Pool): Outcome {
    Do(Do(Do(o, LoadLit(2, pool.next)), LoadWide(12, 2)), StoreWide(12, 3))
  }

  /** Load its stack pointer and R4-R11, and return to it. */
  function LoadContext(o: Outcome, pool: Pool): Outcome {
    Do(Do(Do(Do(Do(o, LoadWide(0, 12)), LdmiaCallee()), MsrPsp()), LoadLitWide(REG_LR, pool.ret)), BxLr())
  }

  function PendSv(c: CpuState, m: Bus.Memory, pool: Pool): Outcome {
    LoadContext(ChangeThread(SaveContext(Outcome(c, m, true), pool), pool), pool)
  }

  /* Single instructions. */

  /** The processor after an instruction that leaves these registers. */
  function Advance(c: CpuState, size: nat, r: Regs): CpuState
    requires size == 2 || size == 4
  {
    c.(r := r[REG_PC := Add32(c.Pc(), size)], cycles := c.cycles + 1)
  }

  /** Outside an IT block, an instruction that falls through just moves on. */
  lemma FallsThrough(c: CpuState, m: Bus.Memory, i: Insn, e: Effect)
    requires c.itstate == 0 && e.Next? && e.pc == Add32(c.Pc(), i.size) && e.c.cycles == c.cycles
    requires Perform(c, m, i, Add32(c.Pc(), i.size)) == e
    ensures Execute(c, m, i) == Outcome(e.c.(r := e.c.r[REG_PC := e.pc], cycles := c.cycles + 1), e.m, true)
  {
    hide Perform, Execute;
    PlainStep(c, m, i);
  }

  lemma DoMrs(c: CpuState, m: Bus.Memory)
    requires c.itstate == 0
    ensures Execute(c, m, MrsPsp()) == Outcome(Advance(c, 4, c.r[0 := c.psp]), m, true)
  {
    hide And32, Or32;
  }

  lemma DoMsr(c: CpuState, m: Bus.Memory)
    requires c.itstate == 0 && c.mode.Handler?
    ensures Execute(c, m, MsrPsp()) == Outcome(Advance(c, 4, c.r).(psp := Aligned(c.r[0])), m, true)
  {
    hide And32, Or32;
  }

  /** The address a load or store of this handler uses. */
  function Address(c: CpuState, i: Insn): u32 {
    if i.op.LdrLit? || i.op.T32LdrLit? then Add32(Literal(c), i.imm) else c.r[i.rn]
  }

  predicate LoadForm(i: Insn) {
    i == LoadLit(i.rd, i.imm) || i == LoadLitWide(i.rd, i.imm) || i == Load(i.rd, i.rn) || i == LoadWide(i.rd, i.rn)
  }

  lemma AccessIs(c: CpuState, m: Bus.Memory, i: Insn, pc: u32)
    requires LoadForm(i)
    ensures LoadStore(c, m, i, pc) == LoadTo(c, m, Address(c, i), 4, i.rd, pc)
  {
    hide Bus.Read, Bus.Write, Aligned, LoadTo, StoreFrom;
    LoadToNoWb(c, m, Address(c, i), i, pc);
  }

  lemma LoadToNoWb(c: CpuState, m: Bus.Memory, a: u32, i: Insn, pc: u32)
    requires !i.writeback
    ensures Wb(LoadTo(c, m, a, 4, i.rd, pc), i, Indexed(c, i)) == LoadTo(c, m, a, 4, i.rd, pc)
  {
    hide Bus.Read;
  }

  lemma DoLoad(c: CpuState, m: Bus.Memory, i: Insn, v: u32)
    requires c.itstate == 0 && LoadForm(i) && Bus.Read(m, Address(c, i), 4) == Some(v)
    ensures Execute(c, m, i) == Outcome(Advance(c, i.size, c.r[i.rd := v]), m, true)
  {
    hide Bus.Read, Address, LoadStore, Perform, Execute, CondPass;
    var pc := Add32(c.Pc(), i.size);
    PerformsAccess(c, m, i, pc);
    AccessIs(c, m, i, pc);
    FallsThrough(c, m, i, Next(SetReg(c, i.rd, v), m, pc));
  }

  predicate StoreForm(i: Insn) { i == Store(i.rd, i.rn) || i == StoreWide(i.rd, i.rn) }

  lemma StoreIs(c: CpuState, m: Bus.Memory, i: Insn, pc: u32, m': Bus.Memory)
    requires StoreForm(i) && Bus.Write(m, c.r[i.rn], 4, c.r[i.rd]) == Some(m')
    ensures LoadStore(c, m, i, pc) == Next(c, m', pc)
  {
    hide Bus.Read, Bus.Write;
  }

  lemma DoStore(c: CpuState, m: Bus.Memory, i: Insn, m': Bus.Memory)
    requires c.itstate == 0 && StoreForm(i) && Bus.Write(m, c.r[i.rn], 4, c.r[i.rd]) == Some(m')
    ensures Execute(c, m, i) == Outcome(Advance(c, i.size, c.r), m', true)
  {
    hide Bus.Write, LoadStore, Perform, Execute, CondPass;
    var pc := Add32(c.Pc(), i.size);
    PerformsAccess(c, m, i, pc);
    StoreIs(c, m, i, pc, m');
    FallsThrough(c, m, i, Next(c, m', pc));
  }

  lemma DoReturn(c: CpuState, m: Bus.Memory)
    requires c.itstate == 0 && c.mode.Handler? && c.r[REG_LR] == RETURN_TO_PSP && ExcReturn(c, m, RETURN_TO_PSP).ok
    ensures Execute(c, m, BxLr()) == ExcReturn(c, m, RETURN_TO_PSP)
  {
    hide ExcReturn;
  }

  /** R4 to R11. */
  function Callee(r: Regs): (ws: seq<u32>)
    ensures |ws| == 8
  {
    r[4..12]
  }

  /** The listed registers among k and up, in order. */
  function Listed(r: Regs, k: nat): seq<u32>
    requires k <= 12
    decreases 12 - k
  {
    if k == 12 then [] else (if k in CALLEE then [r[k]] else []) + Listed(r, k + 1)
  }

  lemma {:induction false} ListedIs(r: Regs, k: nat)
    requires 4 <= k <= 12
    ensures Listed(r, k) == r[k..12]
    decreases 12 - k
  {
    if k < 12 {
      ListedIs(r, k + 1);
      assert k in CALLEE && r[k..12] == [r[k]] + r[k + 1..12];
    }
  }

  lemma {:induction false} ListedAll(r: Regs, k: nat)
    requires k <= 4
    ensures Listed(r, k) == r[4..12]
    decreases 4 - k
  {
    if k < 4 {
      ListedAll(r, k + 1);
      assert [] + Listed(r, k + 1) == Listed(r, k + 1);
    } else {
      ListedIs(r, 4);
    }
  }

  lemma {:induction false} NoneAbove(m: Bus.Memory, r: Regs, k: nat, a: u32)
    requires 12 <= k <= 16
    ensures StoreRegs(m, r, CALLEE, k, 16, a) == (m, true) && LoadRegs(m, r, CALLEE, k, 16, a) == (r, true)
    decreases 16 - k
  {
    if k < 16 {
      NoneAbove(m, r, k + 1, a);
    }
  }

  lemma {:induction false} StoreListed(m: Bus.Memory, r: Regs, k: nat, a: u32)
    requires k <= 12
    ensures StoreRegs(m, r, CALLEE, k, 16, a) == Bus.WriteWords(m, a, Listed(r, k))
    decreases 12 - k
  {
    hide Bus.Write;
    if k == 12 {
      NoneAbove(m, r, 12, a);
    } else if k in CALLEE {
      assert Listed(r, k)[1..] == Listed(r, k + 1);
      if Bus.Write(m, a, 4, r[k]).Some? {
        StoreListed(Bus.Write(m, a, 4, r[k]).value, r, k + 1, Add32(a, 4));
      }
    } else {
      StoreListed(m, r, k + 1, a);
      assert [] + Listed(r, k + 1) == Listed(r, k + 1);
    }
  }

  lemma CalleeCount()
    ensures Count(CALLEE, 16) == 8
  {
    assert Count(CALLEE, 4) == 0;
    assert Count(CALLEE, 8) == 4;
    assert Count(CALLEE, 12) == 8;
  }

  lemma DoStmdb(c: CpuState, m: Bus.Memory, m': Bus.Memory)
    requires c.itstate == 0 && Bus.WriteWords(m, Sub32(c.r[0], 32), Callee(c.r)) == (m', true)
    ensures Execute(c, m, StmdbCallee()) == Outcome(Advance(c, 4, c.r[0 := Sub32(c.r[0], 32)]), m', true)
  {
    hide Bus.WriteWords, StoreRegs, Count, Perform, Execute, CondPass, Listed;
    var r, pc := c.r[REG_PC := Add32(c.Pc(), 4)], Add32(c.Pc(), 4);
    StoreListed(m, r, 0, Sub32(c.r[0], 32));
    ListedAll(r, 0);
    assert r[4..12] == c.r[4..12];
    PerformsTransfer(c, m, StmdbCallee(), pc);
    CalleeCount();
    FallsThrough(c, m, StmdbCallee(), Next(SetReg(c, 0, Sub32(c.r[0], 32)), m', pc));
  }

  /** r with R4 to R11 replaced from register k up. */
  function WithCallee(r: Regs, k: nat, ws: seq<u32>): (r': Regs)
    requires 4 <= k <= 12 && |ws| == 12 - k
  {
    r[..k] + ws + r[12..]
  }

  lemma {:induction false} LoadListed(m: Bus.Memory, r: Regs, k: nat, a: u32, ws: seq<u32>)
    requires 4 <= k <= 12 && |ws| == 12 - k && Bus.ReadWords(m, a, 12 - k) == Some(ws)
    ensures LoadRegs(m, r, CALLEE, k, 16, a) == (WithCallee(r, k, ws), true)
    decreases 12 - k
  {
    hide Bus.Read;
    if k == 12 {
      NoneAbove(m, r, 12, a);
      assert WithCallee(r, 12, ws) == r;
    } else {
      var v := Bus.Read(m, a, 4).value;
      LoadListed(m, r[k := v], k + 1, Add32(a, 4), ws[1..]);
      assert WithCallee(r[k := v], k + 1, ws[1..]) == WithCallee(r, k, ws);
    }
  }

  lemma DoLdmia(c: CpuState, m: Bus.Memory, ws: seq<u32>)
    requires c.itstate == 0 && |ws| == 8 && Bus.ReadWords(m, c.r[0], 8) == Some(ws)
    ensures Execute(c, m, LdmiaCallee()) ==
      Outcome(Advance(c, 4, WithCallee(c.r, 4, ws)[0 := Add32(c.r[0], 32)]), m, true)
  {
    hide Bus.ReadWords, LoadRegs, Count, Perform, Execute, CondPass;
    CalleeCount();
    var pc := Add32(c.Pc(), 4);
    PerformsTransfer(c, m, LdmiaCallee(), pc);
    LoadLow(m, c.r, c.r[0]);
    LoadListed(m, c.r, 4, c.r[0], ws);
    var r := WithCallee(c.r, 4, ws);
    assert r[REG_PC] == c.Pc() && r[REG_PC := c.Pc()] == r && r[0] == c.r[0];
    FallsThrough(c, m, LdmiaCallee(), Next(c.(r := r[0 := Add32(c.r[0], 32)]), m, pc));
  }

  /** No register below R4 is listed. */
  lemma LoadLow(m: Bus.Memory, r: Regs, a: u32)
    ensures LoadRegs(m, r, CALLEE, 0, 16, a) == LoadRegs(m, r, CALLEE, 4, 16, a)
  {
    assert LoadRegs(m, r, CALLEE, 2, 16, a) == LoadRegs(m, r, CALLEE, 4, 16, a);
  }

  /* The whole handler. */

  /** Addresses of the literals, for a handler that starts at this address. */
  function LitAddress(at: u32, off: u32, imm: u32): u32 { Add32(Aligned(Add32(Add32(at, off), 4)), imm) }

  /** The literal pool holds the addresses of the two kernel words and the return code. */
  predicate PoolReads(m: Bus.Memory, at: u32, pool: Pool, kc: u32, kn: u32) {
    && Bus.Read(m, LitAddress(at, 8, pool.current), 4) == Some(kc)
    && Bus.Read(m, LitAddress(at, 14, pool.next), 4) == Some(kn)
    && Bus.Read(m, LitAddress(at, 36, pool.ret), 4) == Some(RETURN_TO_PSP)
  }

  /** Everything but registers, cycle counter and process stack pointer is as it was. */
  predicate Within(c: CpuState, c': CpuState) {
    c' == c.(r := c'.r, cycles := c'.cycles, psp := c'.psp)
  }

  lemma Offsets(at: u32, a: nat, b: nat)
    requires a + b < 0x1_0000_0000
    ensures Add32(Add32(at, a), b) == Add32(at, a + b)
  {
  }

  /** The first five instructions: R4-R11 below the frame, their address in the thread's
      first word. */
  lemma Saves(c: CpuState, m: Bus.Memory, pool: Pool, kc: u32, tcb: u32, m2: Bus.Memory, m3: Bus.Memory)
    requires c.itstate == 0 && Bus.WriteWords(m, Sub32(c.psp, 32), Callee(c.r)) == (m2, true)
    requires Bus.Read(m2, LitAddress(c.Pc(), 8, pool.current), 4) == Some(kc) && Bus.Read(m2, kc, 4) == Some(tcb)
    requires Bus.Write(m2, tcb, 4, Sub32(c.psp, 32)) == Some(m3)
    ensures var o := SaveContext(Outcome(c, m, true), pool);
      && o.ok && o.m == m3 && Within(c, o.c) && o.c.psp == c.psp && o.c.Pc() == Add32(c.Pc(), 14) && o.c.r[3] == kc
  {
    hide Bus.Read, Bus.Write, Bus.WriteWords, Execute, Aligned;
    var p := c.Pc();
    DoMrs(c, m);
    var c1 := Advance(c, 4, c.r[0 := c.psp]);
    assert Callee(c1.r) == Callee(c.r);
    DoStmdb(c1, m, m2);
    var c2 := Advance(c1, 4, c1.r[0 := Sub32(c1.r[0], 32)]);
    Offsets(p, 4, 4);
    DoLoad(c2, m2, LoadLit(3, pool.current), kc);
    var c3 := Advance(c2, 2, c2.r[3 := kc]);
    Offsets(p, 8, 2);
    DoLoad(c3, m2, Load(1, 3), tcb);
    var c4 := Advance(c3, 2, c3.r[1 := tcb]);
    Offsets(p, 10, 2);
    DoStore(c4, m2, Store(0, 1), m3);
    Offsets(p, 12, 2);
  }

  /** The next three: the kernel's current-thread word names the next thread. */
  lemma Changes(c: CpuState, m: Bus.Memory, at: u32, pool: Pool, kc: u32, kn: u32, next: u32, m4: Bus.Memory)
    requires c.itstate == 0 && c.Pc() == Add32(at, 14) && c.r[3] == kc
    requires Bus.Read(m, LitAddress(at, 14, pool.next), 4) == Some(kn) && Bus.Read(m, kn, 4) == Some(next)
    requires Bus.Write(m, kc, 4, next) == Some(m4)
    ensures var o := ChangeThread(Outcome(c, m, true), pool);
      && o.ok && o.m == m4 && Within(c, o.c) && o.c.psp == c.psp && o.c.Pc() == Add32(at, 24) && o.c.r[12] == next
  {
    hide Bus.Read, Bus.Write, Execute, Aligned;
    DoLoad(c, m, LoadLit(2, pool.next), kn);
    var c1 := Advance(c, 2, c.r[2 := kn]);
    DoLoad(c1, m, LoadWide(12, 2), next);
    var c2 := Advance(c1, 4, c1.r[12 := next]);
    DoStore(c2, m, StoreWide(12, 3), m4);
    Offsets(at, 14, 2);
    Offsets(at, 16, 4);
    Offsets(at, 20, 4);
  }

  /** The last five: R4-R11 from the next thread's stack, and an exception return to its frame. */
  lemma Loads(c: CpuState, m: Bus.Memory, at: u32, pool: Pool, sp: u32, callee: seq<u32>, frame: seq<u32>)
    requires c.itstate == 0 && c.mode.Handler? && c.Pc() == Add32(at, 24) && |callee| == 8 && |frame| == 8
    requires Bus.Read(m, c.r[12], 4) == Some(sp) && Bus.ReadWords(m, sp, 8) == Some(callee)
    requires sp % 4 == 0 && sp + 64 < 0x1_0000_0000 && Bus.ReadWords(m, sp + 32, 8) == Some(frame)
    requires Bus.Read(m, LitAddress(at, 36, pool.ret), 4) == Some(RETURN_TO_PSP)
    ensures var o := LoadContext(Outcome(c, m, true), pool);
      && o.ok && o.m == m && o.c.r == PoppedRegs(WithCallee(c.r, 4, callee), frame)[REG_SP := sp + 64]
      && o.c.psp == sp + 64 && o.c.msp == c.msp && o.c.mode.Thread? && o.c.itstate == 0
      && o.c.control == WithSpSel(c.control)
      && o.c.apsr == And32(frame[7], 0xF800_0000) && o.c.halted == c.halted
  {
    hide Bus.Read, Bus.ReadWords, Execute, And32, WithSpSel, WithoutSpSel, Even, Aligned;
    DoLoad(c, m, LoadWide(0, 12), sp);
    var c1 := Advance(c, 4, c.r[0 := sp]);
    DoLdmia(c1, m, callee);
    var c2 := Advance(c1, 4, WithCallee(c1.r, 4, callee)[0 := sp + 32]);
    DoMsr(c2, m);
    AlignedIs(sp + 32);
    var c3 := Advance(c2, 4, c2.r).(psp := sp + 32);
    Offsets(at, 24, 4);
    Offsets(at, 28, 4);
    Offsets(at, 32, 4);
    DoLoad(c3, m, LoadLitWide(REG_LR, pool.ret), RETURN_TO_PSP);
    var c4 := Advance(c3, 4, c3.r[REG_LR := RETURN_TO_PSP]);
    DoReturn(c4, m);
    SamePopped(c.r, c4.r, callee, frame, sp + 64);
  }

  lemma AlignedIs(v: u32)
    requires v % 4 == 0
    ensures Aligned(v) == v
  {
  }

  /** What the handler left in other registers does not show after the return. */
  lemma SamePopped(r: Regs, r': Regs, callee: seq<u32>, frame: seq<u32>, sp: u32)
    requires |callee| == 8 && |frame| == 8 && r'[4..12] == callee
    ensures PoppedRegs(r', frame)[REG_SP := sp] == PoppedRegs(WithCallee(r, 4, callee), frame)[REG_SP := sp]
  {
    hide Even;
    assert forall k: Reg :: 4 <= k < 12 ==> r'[k] == r'[4..12][k - 4];
  }

  /* A switch: exception entry, the handler, exception return. */

  function Switch(c: CpuState, m: Bus.Memory, pool: Pool): Outcome {
    var o := ExcEnter(c, m, EXC_PENDSV);
    if o.ok then PendSv(o.c, o.m, pool) else o
  }

  /** The sixteen words a suspended thread leaves on its stack. */
  function SavedWords(c: CpuState): (ws: seq<u32>)
    ensures |ws| == 16
  {
    Callee(c.r) + Frame(c, EXC_PENDSV)
  }

  /** The context sixteen words at an address stand for. */
  function Resumed(ws: seq<u32>, sp: nat): Context
    requires |ws| == 16 && sp + 64 < 0x1_0000_0000
  {
    Context([ws[8], ws[9], ws[10], ws[11]] + ws[..8] + [ws[12], sp + 64, ws[13], Even(ws[14])],
      And32(ws[15], 0xF800_0000), 0, Thread, true)
  }

  lemma PoppedIs(r: Regs, ws: seq<u32>, sp: nat)
    requires |ws| == 16 && sp + 64 < 0x1_0000_0000
    ensures PoppedRegs(WithCallee(r, 4, ws[..8]), ws[8..])[REG_SP := sp + 64] == Resumed(ws, sp).r
  {
    hide And32, Even;
  }

  /** What a thread saves stands for its own context, exactly when that is recoverable. */
  lemma SavedIsOwn(c: CpuState)
    requires UsesPsp(c) && c.r[REG_SP] >= 64
    ensures Resumed(SavedWords(c), c.r[REG_SP] - 64) == ContextOf(c) <==> Recoverable(c)
  {
    hide And32, Or32, StackedPsr;
    StackedPsrParts(c, EXC_PENDSV);
    var ctx := Resumed(SavedWords(c), c.r[REG_SP] - 64);
    assert ctx.r == c.r[REG_PC := Even(c.Pc())];
    EvenPc(c.r);
  }

  /** The frame a new thread is created with: entered with its argument, at its entry point. */
  function InitialWords(entry: u32, arg: u32): (ws: seq<u32>)
    ensures |ws| == 16
  {
    [0, 0, 0, 0, 0, 0, 0, 0, arg, 1, 2, 3, 12, RETURN_TO_PSP, SetThumb(entry), 0x0100_0000]
  }

  lemma StartsAtEntry(entry: u32, arg: u32, sp: nat)
    requires sp + 64 < 0x1_0000_0000
    ensures var ctx := Resumed(InitialWords(entry, arg), sp);
      ctx.r[0] == arg && ctx.r[REG_PC] == Even(entry) && ctx.r[REG_SP] == sp + 64 && ctx.apsr == 0
  {
    hide And;
    Powers();
    AndHigh(0x0100_0000, 27, 32, 0xF800_0000);
    DivModUnique(0x0100_0000, 0x800_0000, 0, 0x0100_0000);
  }

  /** Every access of the switch succeeds, with these intermediate memories: frame, callee
      registers, stack pointer and current thread stored in turn. */
  ghost predicate Goes(c: CpuState, m: Bus.Memory, pool: Pool, at: u32, kc: u32, kn: u32, tcb: u32, next: u32,
    m1: Bus.Memory, m2: Bus.Memory, m3: Bus.Memory, m4: Bus.Memory)
  {
    var top := c.r[REG_SP];
    && UsesPsp(c) && top >= 64
    && Bus.WriteWords(m, top - 32, Frame(c, EXC_PENDSV)) == (m1, true)
    && Bus.Read(m1, 4 * EXC_PENDSV, 4).Some? && Even(Bus.Read(m1, 4 * EXC_PENDSV, 4).value) == at
    && Bus.WriteWords(m1, top - 64, Callee(c.r)) == (m2, true)
    && PoolReads(m2, at, pool, kc, kn) && Bus.Read(m2, kc, 4) == Some(tcb)
    && Bus.Write(m2, tcb, 4, top - 64) == Some(m3)
    && PoolReads(m3, at, pool, kc, kn) && Bus.Read(m3, kn, 4) == Some(next)
    && Bus.Write(m3, kc, 4, next) == Some(m4)
    && PoolReads(m4, at, pool, kc, kn)
  }

  /** Then the switch succeeds, and resumes the context found at the next thread's stack
      pointer. */
  lemma SwitchResumes(c: CpuState, m: Bus.Memory, pool: Pool, at: u32, kc: u32, kn: u32, tcb: u32, next: u32,
    m1: Bus.Memory, m2: Bus.Memory, m3: Bus.Memory, m4: Bus.Memory, sp: u32, ws: seq<u32>)
    requires Goes(c, m, pool, at, kc, kn, tcb, next, m1, m2, m3, m4) && |ws| == 16 && sp % 4 == 0
    requires sp + 64 < 0x1_0000_0000
    requires Bus.Read(m4, next, 4) == Some(sp)
    requires Bus.ReadWords(m4, sp, 8) == Some(ws[..8]) && Bus.ReadWords(m4, sp + 32, 8) == Some(ws[8..])
    ensures var o := Switch(c, m, pool);
      o.ok && o.m == m4 && ContextOf(o.c) == Resumed(ws, sp) && UsesPsp(o.c) && o.c.halted == c.halted
  {
    hide Bus.Read, Bus.Write, Bus.WriteWords, Bus.ReadWords, Frame, And32, Even, Aligned, SaveContext, ChangeThread,
         LoadContext, WithSpSel;
    var e := ExcEnter(c, m, EXC_PENDSV);
    assert e.ok && e.m == m1 && e.c.Pc() == at && e.c.psp == c.r[REG_SP] - 32 && Callee(e.c.r) == Callee(c.r);
    Saves(e.c, m1, pool, kc, tcb, m2, m3);
    var o1 := SaveContext(e, pool);
    Changes(o1.c, m3, at, pool, kc, kn, next, m4);
    var o2 := ChangeThread(o1, pool);
    Loads(o2.c, m4, at, pool, sp, ws[..8], ws[8..]);
    PoppedIs(o2.c.r, ws, sp);
    SpSelBit(o2.c.control);
  }
}

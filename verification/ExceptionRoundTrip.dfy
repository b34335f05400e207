/** Exception entry followed by return, around any handler that respects the
    procedure-call standard: exactly which contexts survive. */
module ExceptionRoundTrip {
  import opened Words
  import opened Cpu
  import opened Nvic
  import Bus

  /** What the interrupted program can observe of the processor. */
  datatype Context = Context(r: Regs, apsr: u32, itstate: u8, mode: Mode, spSel: bool)

  function ContextOf(c: CpuState): Context {
    Context(c.r, c.apsr, c.itstate, c.mode, c.SpSel())
  }

  function FrameAddress(c: CpuState): u32 {
    Sub32(c.r[REG_SP], 32)
  }

  /** A handler may do anything except lose R4-R11, either stack pointer, or the frame. */
  ghost predicate Handled(c: CpuState, entered: Outcome, c': CpuState, m': Bus.Memory) {
    && (forall k: Reg | 4 <= k < 12 :: c'.r[k] == entered.c.r[k])
    && c'.msp == entered.c.msp && c'.psp == entered.c.psp
    && Bus.ReadWords(m', FrameAddress(c), 8) == Bus.ReadWords(entered.m, FrameAddress(c), 8)
  }

  predicate Recoverable(c: CpuState) {
    c.mode.Thread? && c.itstate == 0 && c.Pc() % 2 == 0 && c.apsr % 0x800_0000 == 0
  }

  /** Three parts that do not overlap: bits 27 up, bits 10 to 26, bits 0 to 8. */
  lemma PartsCombine(q: nat, k: nat, x: u32)
    requires k < 0x2_0000 && x < 0x200 && q < 32
    ensures Or32(Or32(0x800_0000 * q, 0x400 * k), x) == 0x800_0000 * q + 0x400 * k + x
  {
    Powers();
    assert Pow2(10) == 0x400;
    var a, e: u32 := 0x800_0000 * q, 0x400 * k;
    DivModUnique(a, 0x800_0000, q, 0);
    OrDisjoint(e, a, 27, 32);
    DivModUnique(a + e, 0x400, 0x2_0000 * q + k, 0);
    OrDisjoint(x, a + e, 10, 32);
  }

  lemma PartsSelect(q: nat, k: nat, x: u32)
    requires k < 0x2_0000 && x < 0x200 && q < 32
    ensures And32(0x800_0000 * q + 0x400 * k + x, 0xF800_0000) == 0x800_0000 * q
    ensures And32(0x800_0000 * q + 0x400 * k + x, 0x1FF) == x
  {
    Powers();
    assert Pow2(9) == 0x200;
    var s: u32 := 0x800_0000 * q + 0x400 * k + x;
    AndHigh(s, 27, 32, 0xF800_0000);
    AndLow(s, 9, 32);
    DivModUnique(s, 0x800_0000, q, 0x400 * k + x);
    DivModUnique(s, 0x200, 0x4_0000 * q + 2 * k, x);
    assert Mod(s, 0x200) == x;
  }

  lemma ApsrPart(apsr: u32)
    ensures And32(apsr, 0xF800_0000) == 0x800_0000 * (apsr / 0x800_0000)
  {
    Powers();
    AndHigh(apsr, 27, 32, 0xF800_0000);
  }

  lemma EpsrPart(epsr: u32) returns (k: nat)
    ensures k < 0x2_0000 && And32(epsr, 0x0600_FC00) == 0x400 * k
  {
    assert Pow2(10) == 0x400;
    AndBound(epsr, 0x0600_FC00, 32);
    AndClears(epsr, 0x0600_FC00, 10, 32);
    k := And32(epsr, 0x0600_FC00) / 0x400;
  }

  lemma ExcPart(exc: u8)
    ensures And32(exc, 0x1FF) == exc
  {
    hide And;
    assert Pow2(9) == 0x200;
    AndLow(exc, 9, 32);
    assert Mod(exc, 0x200) == exc;
  }

  lemma StackedPsrParts(c: CpuState, exc: u8)
    ensures And32(StackedPsr(c, exc), 0xF800_0000) == c.apsr / 0x800_0000 * 0x800_0000
    ensures And32(StackedPsr(c, exc), 0x1FF) == exc
  {
    hide And32, Or32;
    ApsrPart(c.apsr);
    ExcPart(exc);
    var k := EpsrPart(c.epsr);
    PartsCombine(c.apsr / 0x800_0000, k, exc);
    PartsSelect(c.apsr / 0x800_0000, k, exc);
  }

  lemma EntryState(c: CpuState, m: Bus.Memory, exc: u8)
    requires ExcEnter(c, m, exc).ok
    ensures var e := ExcEnter(c, m, exc); var sp := FrameAddress(c);
      && Bus.ReadWords(e.m, sp, 8) == Some(Frame(c, exc))
      && Add32(sp, 32) == c.r[REG_SP]
      && e.c.r[REG_LR] == ExcReturnCode(c)
      && (if UsesPsp(c) then e.c.psp == sp else e.c.msp == sp)
      && e.c.mode.Handler? && e.c.control == c.control
      && forall k: Reg | k < 13 :: e.c.r[k] == c.r[k]
  {
    var sp := FrameAddress(c);
    Bus.WordsRoundTrip(m, sp, Frame(c, exc));
    Bus.WriteWordsFrame(m, sp, Frame(c, exc), 0, 1);
  }

  lemma ReturnCode(c: CpuState)
    ensures ToPsp(ExcReturnCode(c)) <==> UsesPsp(c)
    ensures !ToHandler(ExcReturnCode(c))
  {
  }

  lemma SpSelBit(control: u32)
    ensures WithSpSel(control) / 2 % 2 == 1
    ensures WithoutSpSel(control) / 2 % 2 == 0
  {
  }

  lemma ReturnState(c: CpuState, m: Bus.Memory, exc: u8, c': CpuState, m': Bus.Memory, ret: u32)
    requires ExcEnter(c, m, exc).ok
    requires Handled(c, ExcEnter(c, m, exc), c', m')
    requires ToPsp(ret) <==> UsesPsp(c)
    ensures ExcReturn(c', m', ret) == Outcome(Unstacked(c', Frame(c, exc), c.r[REG_SP], ret), m', true)
  {
    EntryState(c, m, exc);
    var sp := FrameAddress(c);
    assert (if ToPsp(ret) then c'.psp else c'.msp) == sp;
    assert Bus.ReadWords(m', sp, 8) == Some(Frame(c, exc));
  }

  lemma RestoredRegs(c: CpuState, exc: u8, c': CpuState)
    requires forall k: Reg | 4 <= k < 12 :: c'.r[k] == c.r[k]
    ensures PoppedRegs(c'.r, Frame(c, exc))[REG_SP := c.r[REG_SP]] == c.r[REG_PC := Even(c.Pc())]
  {
  }

  lemma RestoredContext(c: CpuState, exc: u8, c': CpuState, ret: u32)
    requires forall k: Reg | 4 <= k < 12 :: c'.r[k] == c.r[k]
    requires (ToPsp(ret) <==> UsesPsp(c)) && !ToHandler(ret)
    ensures ContextOf(Unstacked(c', Frame(c, exc), c.r[REG_SP], ret)) ==
      Context(c.r[REG_PC := Even(c.Pc())], c.apsr / 0x800_0000 * 0x800_0000, 0, Thread, UsesPsp(c))
  {
    RestoredRegs(c, exc, c');
    StackedPsrParts(c, exc);
    SpSelBit(c'.control);
  }

  lemma EvenPc(r: Regs)
    ensures r[REG_PC := Even(r[REG_PC])] == r <==> r[REG_PC] % 2 == 0
  {
    assert r[REG_PC := Even(r[REG_PC])][REG_PC] == Even(r[REG_PC]);
  }

  /** Entry, any well-behaved handler, and return with the given LR restore the whole
      interrupted context exactly when it was in Thread mode outside an IT block, at an
      even address, with no APSR bit below Q set. */
  lemma EntryReturnIsIdentity(c: CpuState, m: Bus.Memory, exc: u8, c': CpuState, m': Bus.Memory)
    requires ExcEnter(c, m, exc).ok
    requires Handled(c, ExcEnter(c, m, exc), c', m')
    ensures var back := ExcReturn(c', m', ExcEnter(c, m, exc).c.r[REG_LR]);
      back.ok && (ContextOf(back.c) == ContextOf(c) <==> Recoverable(c))
  {
    EntryState(c, m, exc);
    var ret := ExcReturnCode(c);
    ReturnCode(c);
    ReturnState(c, m, exc, c', m', ret);
    RestoredContext(c, exc, c', ret);
    EvenPc(c.r);
  }

  /** IPSR is not part of the restored context: the frame carries the number of the
      exception being entered, so a return to Thread mode leaves that number in IPSR. */
  lemma ReturnKeepsExceptionNumber(c: CpuState, m: Bus.Memory, exc: u8, c': CpuState, m': Bus.Memory)
    requires ExcEnter(c, m, exc).ok
    requires Handled(c, ExcEnter(c, m, exc), c', m')
    ensures ExcReturn(c', m', ExcEnter(c, m, exc).c.r[REG_LR]).c.ipsr == exc
  {
    EntryState(c, m, exc);
    ReturnCode(c);
    ReturnState(c, m, exc, c', m', ExcReturnCode(c));
    StackedPsrParts(c, exc);
  }
}
